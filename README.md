# Site blocker core, modelled in Dafny

This project models the core of a Firefox extension. The extension blocks
navigation to listed domains. It can confine a block to weekly time windows,
and it can open single URLs inside allowed time windows. It also keeps sticky
notes per domain in the extension's local storage.

The model covers four parts of the extension:

- `url_utils.dfy` models `js/modules/urlUtils.js`:
  - extracting the hostname of a URL, with a fallback to the raw input;
  - matching a hostname against a blocked domain by dot suffix;
  - recognising browser-internal URLs.
- `time_utils.dfy` models `js/modules/timeUtils.js`:
  - whether an instant falls inside a list of weekly windows;
  - the Portuguese text that lists the windows;
  - the shape check for a window.
- `blocking_service.dfy` models `js/modules/blockingService.js`:
  - the blocking decision, where the first matching blocklist entry governs, then its windows, then the first exception for the exact URL;
  - the redirect to the blocked page.
- `configuration.dfy` and `site_notes.dfy` model `background.js`:
  - reading the stored configuration and spreading updates over it;
  - the five sticky-note message handlers.

  The note handlers are methods of the class `ExtensionStorage`, whose field
  is the value stored under the "config" key. Each handler is proved against
  a function on the entry list: `GetSiteNotes`, `AddNote`, `UpdateNote`,
  `DeleteNote` or `DeleteDomain`. The properties are proved about those
  functions.

`collections.dfy` holds the JavaScript array operations the core relies on
(`find`, `findIndex`, `filter`). `text.dfy` holds number-to-text rendering,
`padStart` and `join`. `wrappers.dfy` holds `Option` and `Result`.

Several inputs of the source become parameters of the model:

- **The current instant** (`new Date()`) becomes a `Clock(day, minute)` argument. One decision uses that single instant for every window check it makes.
- **The browser's URL parser** (`new URL(url).hostname`) becomes a function `string -> Option<string>`. `None` stands for the parser throwing.
- **`browser.runtime.getURL("blocked.html")` and `encodeURIComponent`** become a string argument and a function argument of `BlockRequest`.
- **The configuration read by `shouldBlockUrl`** becomes an argument. The source takes it from `StorageModule.getConfig()`, but `js/modules/storage.js` defines no such function.

Hours are counted in whole minutes of the day, so 8.5 hours is 510.

Some behaviours of the source that are easy to miss:

- The messages are the source's Portuguese strings: "Este domínio está bloqueado.", "Esta URL só é permitida nos seguintes horários: ", "Sempre bloqueado", the day names, " das " and " às ".
- An exception whose window list is empty always allows its URL, because `isWithinTimeWindow` returns true for an empty list (`js/modules/timeUtils.js:13-15`).
- A blocklist entry that is the empty string matches the host "" and every host ending in ".". The value `find` then returns is falsy, so `if (!blockedDomain)` allows the URL and later entries are never consulted (`js/modules/blockingService.js:21-30`). The model keeps this behaviour.
- A failed note handler replies with `error.toString()`, which is "Error: " followed by the message.

## Model

| member | source | states |
|---|---|---|
| Collections.FindIndex | background.js:135 | `findIndex`: the result is the first index whose element satisfies the predicate, and it is None exactly when no element does |
| Collections.Filter | background.js:173 | `filter`: every kept element satisfies the predicate and comes from the input, every input element that satisfies it is kept, and the result is no longer than the input |
| Collections.Find | js/modules/blockingService.js:21 | `find`: the element at the index `FindIndex` returns, or None when `FindIndex` returns None |
| Collections.FilterAppend | background.js:200 | `filter` distributes over concatenation, so kept elements keep their order |
| Collections.FindAppend | background.js:94 | `find` on a concatenation looks in the second part only when the first part has no match |
| Collections.FilterIdempotent | background.js:200 | filtering twice by the same predicate is filtering once |
| Text.NatToStringRoundTrip | js/modules/timeUtils.js:40 | the decimal rendering of a number reads back as that number |
| Text.IntToString | js/modules/timeUtils.js:40 | the decimal digits of a non-negative number, and for a negative one a minus sign followed by the digits of its magnitude |
| Text.PadStart | js/modules/timeUtils.js:41 | `padStart`: the result has at least the width, ends with the input, and only fill characters come before it |
| Text.JoinAppend | js/modules/timeUtils.js:46 | joining two non-empty lists is joining each and putting the separator between them |
| UrlUtils.ExtractDomain | js/modules/urlUtils.js:10-18 | the parsed hostname when parsing succeeds, and the input unchanged when the parser throws |
| UrlUtils.DomainMatchesIff | js/modules/urlUtils.js:26-28 | a host matches a blocked domain if and only if it equals it or is some labels, a dot, then the domain |
| UrlUtils.DomainMatchesReflexive | js/modules/urlUtils.js:27 | every domain matches itself |
| UrlUtils.DomainMatchesTransitive | js/modules/urlUtils.js:26-28 | a host matching a subdomain of a rule matches the rule |
| UrlUtils.PrefixLabelPreservesMatch | js/modules/urlUtils.js:27 | adding a label in front of a matching host keeps it matching |
| UrlUtils.NoMatchWithoutDot | js/modules/urlUtils.js:27 | "notexample.com" does not match "example.com", while "www.example.com" does |
| UrlUtils.WebUrlsAreNotInternal | js/modules/urlUtils.js:35-40 | an http: or https: URL is never internal |
| TimeUtils.SomeCovers | js/modules/timeUtils.js:21-25 | `some`: true if and only if some window has the current day and contains the current minute, start included and end excluded |
| TimeUtils.IsWithinTimeWindow | js/modules/timeUtils.js:12-26 | an empty list is always inside; otherwise inside if and only if some window covers the instant |
| TimeUtils.WindowIsHalfOpen | js/modules/timeUtils.js:23-24 | the start minute of a window is inside it and the end minute is not |
| TimeUtils.AddingWindowKeepsInside | js/modules/timeUtils.js:21-25 | adding a window to a non-empty list never takes an instant out |
| TimeUtils.FirstWindowCanRestrict | js/modules/timeUtils.js:13-15 | the empty list covers Saturday 10:00, but a weekday-only list does not |
| TimeUtils.MinutesTextDigits | js/modules/timeUtils.js:41 | minutes 0 to 59 render as exactly two digits whose value is the minutes |
| TimeUtils.FormatHourDigits | js/modules/timeUtils.js:40-43 | a non-negative hour renders as its whole hours, a colon and two digits holding the remaining minutes |
| TimeUtils.FormatWholeHour | js/modules/timeUtils.js:41 | a whole hour renders with ":00" |
| TimeUtils.FormatHourExamples | js/modules/timeUtils.js:40-43 | 8 h, 17 h, 9 h 05 and 23 h 30 render as "8:00", "17:00", "9:05" and "23:30" |
| TimeUtils.DayList | js/modules/timeUtils.js:39 | one day name per day, in order |
| TimeUtils.Segments | js/modules/timeUtils.js:38-45 | one text segment per window, in order |
| TimeUtils.FormatTimeWindows | js/modules/timeUtils.js:33-47 | "Sempre bloqueado" for no windows, and the window's own segment for one window |
| TimeUtils.FormatTimeWindowsAppend | js/modules/timeUtils.js:38-46 | the text of two lists put together is the first text, "<br>", then the second text |
| TimeUtils.WeekdayNamesExample | js/modules/timeUtils.js:5 | days 1 to 5 render as "Segunda, Terça, Quarta, Quinta, Sexta" |
| TimeUtils.FormatTimeWindowsExample | js/modules/timeUtils.js:38-46 | a weekday window from 8:00 to 17:00 renders as "Segunda, Terça, Quarta, Quinta, Sexta das 8:00 às 17:00" |
| TimeUtils.ValidateTimeWindowMinimal | js/modules/timeUtils.js:54-67 | a window is valid if and only if it has a day and 0 <= start < end <= 24 h |
| TimeUtils.ValidWindowIsInhabited | js/modules/timeUtils.js:54-67 | a valid window covers its own start minute on its first day |
| TimeUtils.ValidWindowWithinDay | js/modules/timeUtils.js:59-62 | a valid window only covers minutes inside one day |
| Configuration.GetConfig | background.js:55-59 | the stored configuration, or empty lists when nothing is stored |
| Configuration.MergeConfig | background.js:61-68 | each key present in the updates replaces the stored one, and each absent key keeps the stored value |
| Configuration.MergeNothing | background.js:63 | spreading an empty update changes nothing |
| Configuration.MergeIdempotent | background.js:63 | applying the same update twice is applying it once |
| Configuration.MergeTwice | background.js:63 | two updates in a row are one combined update in which the later keys win |
| BlockingService.ShouldBlockUrl | js/modules/blockingService.js:14-65 | a block always comes from the first matching blocklist entry, which is not the empty string and is in force at that instant; its reason is "domain" with the fixed message or "time" with the allowed-hours prefix |
| BlockingService.FalsyMatchAllows | js/modules/blockingService.js:21-30 | when the first matching entry is the empty string, the URL is allowed, whatever the later entries and exceptions say |
| BlockingService.EmptyEntryShadowsLaterRule | js/modules/blockingService.js:21-30 | with the entries "" and "example.com.", the URL with host "example.com." is allowed |
| BlockingService.UnmatchedHostAllowed | js/modules/blockingService.js:21-30 | a URL whose host matches no entry is allowed |
| BlockingService.FirstMatchGoverns | js/modules/blockingService.js:21-25 | the verdict depends only on the first matching entry |
| BlockingService.LaterEntriesIgnored | js/modules/blockingService.js:21-25 | appending entries after the first match does not change the verdict |
| BlockingService.OutsideBlockingWindowAllowed | js/modules/blockingService.js:33-38 | an entry with windows, none of which covers the instant, allows the URL |
| BlockingService.BlockedWithoutException | js/modules/blockingService.js:41-50 | when the governing entry is not the empty string and is in force, and no exception names the exact URL, the verdict is a domain block |
| BlockingService.ExceptionDecides | js/modules/blockingService.js:53-64 | when the governing entry is not the empty string and is in force, the first exception for the URL allows when its windows cover the instant, and otherwise blocks with the formatted allowed hours |
| BlockingService.ExceptionWithoutWindowsAllows | js/modules/blockingService.js:53-55 | an exception with no windows allows its URL at every instant |
| BlockingService.BlockedOnlyInsideWindow | js/modules/blockingService.js:33-38 | a blocked URL is always inside its entry's blocking window |
| BlockingService.MalformedUrlIsLiteralHost | js/modules/blockingService.js:17 | an unparsable URL is matched as its own text, so a rule naming that text blocks it |
| BlockingService.ScenarioDomainBlocked | js/modules/blockingService.js:41-50 | a video URL on a blocked domain with no exception is a domain block |
| BlockingService.ScenarioExceptionInsideWindow | js/modules/blockingService.js:53-55 | its weekday exception allows it on Wednesday at 10:00 |
| BlockingService.ScenarioExceptionOutsideWindow | js/modules/blockingService.js:56-64 | on Saturday the same URL is a time block listing "Segunda, Terça, Quarta, Quinta, Sexta das 8:00 às 17:00" |
| BlockingService.ScenarioOutsideDomainWindow | js/modules/blockingService.js:33-38 | a weekend-only rule allows the URL on a Tuesday, at every minute |
| BlockingService.BlockRequest | js/modules/blockingService.js:72-86 | a redirect if and only if the URL is blocked, to the blocked page with the encoded message and URL |
| SiteNotes.GetSiteNotes | background.js:73-84 | the notes of the first entry for the domain, or none when there is no entry |
| SiteNotes.AddNote | background.js:94-105 | a new entry holding just the note is appended when the domain has none; otherwise the note is appended to the first entry and nothing else changes |
| SiteNotes.UpdateNote | background.js:129-144 | "Domínio não encontrado" if and only if the domain has no entry, "Nota não encontrada" if and only if its first entry has no note with the id; on success the list is the input with only the first entry's first note with the id replaced by that note with the updates spread over it |
| SiteNotes.DeleteNote | background.js:167-178 | fails if and only if the domain has no entry, with "Domínio não encontrado"; otherwise the notes with the id leave the first entry, and when none remain every entry for the domain is removed, with the rest of the list unchanged |
| SiteNotes.DeleteDomain | background.js:200 | no entry for the domain is left, every other entry is kept, and nothing new appears |
| SiteNotes.AddThenGet | background.js:94-105 | after adding, the domain's notes are its previous notes followed by the new one |
| SiteNotes.AddKeepsOtherDomains | background.js:94-105 | adding a note leaves every other domain's notes as they were |
| SiteNotes.UpdateThenGet | background.js:135-144 | after an update, the domain's notes are the previous ones with the first note carrying the id replaced by that note with the updates spread over it |
| SiteNotes.UpdateKeepsOtherDomains | background.js:141-144 | an update leaves every other domain's notes as they were |
| SiteNotes.DeleteThenGet | background.js:173-178 | after a delete, the domain's notes are its previous notes without those carrying the id |
| SiteNotes.DeleteRemovesId | background.js:173 | after a delete, no note of the domain carries the id |
| SiteNotes.DeleteLastNoteDropsDomain | background.js:176-178 | the domain's entry disappears exactly when no note is left in it |
| SiteNotes.DeleteKeepsOtherDomains | background.js:173-178 | a delete leaves every other domain's notes as they were |
| SiteNotes.DeleteDomainKeepsOtherDomains | background.js:200 | deleting a domain's notes leaves every other domain's notes as they were |
| SiteNotes.DeleteDomainIdempotent | background.js:200 | deleting a domain's notes twice is deleting them once |
| SiteNotes.DeleteDomainKeepsOrder | background.js:200 | the remaining entries keep their order |
| SiteNotes.ExtensionStorage.ReadSiteNotes | background.js:73-84 | the `getSiteNotes` reply is the first entry's notes, or none, and storage is not written |
| SiteNotes.ExtensionStorage.UpdateConfig | background.js:61-68 | the stored configuration becomes the current one with the updates spread over it, and the reply is success |
| SiteNotes.ExtensionStorage.AddSiteNote | background.js:87-118 | the stored note list becomes `AddNote` of the old one, the other lists are unchanged, and the reply is success |
| SiteNotes.ExtensionStorage.UpdateSiteNote | background.js:121-157 | on an `UpdateNote` error storage is untouched and the reply is that error; otherwise the stored list becomes its result |
| SiteNotes.ExtensionStorage.DeleteSiteNote | background.js:160-191 | on a `DeleteNote` error storage is untouched and the reply is that error; otherwise the stored list becomes its result |
| SiteNotes.ExtensionStorage.DeleteSiteNotes | background.js:194-213 | the stored note list becomes `DeleteDomain` of the old one, and the reply is success |

## Left out

- Browser plumbing is not modelled: message passing, `sendResponse`, promises and `return true`, console logging, the `webRequest` listener registration, tab handling and notifications (`js/modules/messageHandler.js`, `js/modules/tabManager.js`, `js/modules/notificationService.js`). These are I/O around the modelled logic.
- Storage writes are modelled as always succeeding. The `.catch` path that reports a failed `browser.storage.local.set` is not modelled; only the handlers' own "not found" errors are.
- The options page, popup, content script, sticky-note widget and UI tables (`options.js`, `popup.js`, `contentScript.js`, `js/ui/*`, `js/modules/stickyNotes.js`) are not part of this model. `js/ui/timeWindowManager.js` repeats a weaker form of the window validation and is not modelled either.
- `js/modules/storage.js` is not part of this model. The configuration is an argument of `ShouldBlockUrl`.
- URL parsing, `encodeURIComponent` and `getURL` are parameters. The model does not say how a browser parses hosts or percent-encodes text.
- Hours are whole minutes. Fractions of an hour that are not whole minutes, and the floating-point rounding of `Math.round(h % 1 * 60)` (which can print ":60" for some inputs), are not modelled.
- JavaScript's dynamic typing is not modelled. A configuration entry always has the shape its datatype gives. Blocklist entries are a domain string or a rule object. A missing `timeWindows` or `siteNotes` is the empty list, which the source treats the same way. The `typeof`, `isNaN` and `Array.isArray` guards, and entries that lack a `domain` or `url`, have no counterpart.
- The `title` field of a blocklist rule is not modelled. The blocking decision does not read it.
- `ValidateTimeWindow`: the days in a window are not range-checked. The source only requires a non-empty array.
- `Configuration.MergeConfig`: an update object with keys other than `blockedDomains`, `exceptionUrls` and `siteNotes` is not modelled. The configuration has only those three lists.
- Notes are maps from field names to JSON-like values. Their `text`, `color`, `position` and timestamps are not interpreted. Only the `id` field matters to the handlers.
- The note handlers mutate an entry object and then store the whole list. Here that is a replacement of the entry in the sequence, which gives the same stored value.
- BlockingService.ShouldBlockUrl: the source reads the clock separately for the rule's windows and for the exception's windows. Each `isWithinTimeWindow` call (`js/modules/blockingService.js:34,53`) does its own `new Date()` (`js/modules/timeUtils.js:17`). The model uses one instant for both checks, so a verdict whose two reads fall on either side of a minute or day boundary is not modelled. `ExceptionDecides` and `BlockedOnlyInsideWindow` rely on this single instant.
- Aliasing of the default configuration is not modelled. When nothing is stored, `getConfig` returns the module-level `defaultConfig` object (`background.js:57`), and `addSiteNote` pushes its new entry into `defaultConfig.siteNotes` itself (`background.js:91,101`). The stored value is the same as in the model, but a later read that again finds nothing stored would see the mutated default. The model always returns empty lists.
