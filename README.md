# Idealista scraper — a verified model of its core

`scraper.py` drives one scraping run of an idealista.com search page. It has
two parts:

- a `Publication` record, built from a listing link by `from_url`;
- a `WebScraper` object whose stage handlers move it through a state machine
  built with `transitions`.

The stages are:

1. `loading_page`: navigate, pause, look for the consent button.
2. `handling_cookies`: click the consent button.
3. `waiting_page_load`: probe up to five times with the XPath
   `//article[contains(@class, 'item')]` (a substring test on the class
   attribute), then save the page as `{page_counter:02d}_current_page.html`,
   which is `01_current_page.html` for a fresh scraper.
4. `extracting_publications`: read `01_current_page.html` and append one
   listing per usable `article.item` of it.
5. `extracting_details`, then `completed`.

Any exception inside a handler records a message and fires `error`.

The model is written in Dafny, module by module:

- `Strings`: `str.split` on one separator character and its inverse `Join`,
  with the lemmas `from_url` needs (the element before the last).
- `Publications`: `Publication.from_url`. The id is element −2 of
  `url.split('/')`, or none for an empty url. A url with no `/` gives
  `IndexError`. A url starting with `/` is made absolute with the base.
- `Stages`: the state list and the transition table, with the
  `transitions` semantics the scraper relies on. An unlisted trigger raises
  `MachineError`. Source `'*'` means every state. There are no automatic
  transitions.
- `Snapshots`: the `{counter:02d}_{description}.html` file names.
- `Extraction`: the per-article filter of `on_extracting_publications` and
  the whole loop as a function (`ExtractAll`).
- `Probing`: `extract_elements` and its `'//'` dispatch between `find_all`
  and `select_all`, and the first attempt that finds articles.
- `Pipeline`: the observable state of the scraper as a value (`ScraperView`).
  There is one function per handler, and a run is `Drive`. The lemmas say how
  a run ends, which states it visits, what it counts and which files it writes.
- `Scraper`: the class `WebScraper`, whose fields the handlers update in
  place. Each method is proved to leave the object in the state the matching
  `Pipeline` function describes.

The browser is a `Browser` value passed to the handlers. It fixes:

- the navigation outcome;
- what the two consent-button lookups return;
- the click outcome;
- the answer to each waiting-stage probe;
- the page content, given as parsed `article.item` records.

The session directory is a map from file name to saved content. Sleeps are
counted, not timed.

Behaviours of `scraper.py` worth knowing, each proved in the model:

- `error` is added with source `'*'`, so it is also accepted in `completed`
  and in `error` itself (`Stages.TerminalStatesOnlyFail`).
- The listing id is element −2 of `url.split('/')`, not the last path
  segment. For a link `p/n/` it is `n`
  (`Publications.IdBetweenLastSlashes` with an empty last piece), but
  `x/y//` gives the empty id. A relative `/w` gives the empty id, while
  `https://www.idealista.com/w` gives the host name
  (`Publications.IdealistaSingleSlash`).
- Extraction opens the fixed name `01_current_page.html`, whatever the
  counter. A run writes at most one snapshot, and exactly one when articles
  are found, so for a fresh scraper that file is always the page just saved
  (`Pipeline.FreshRunReadsItsSnapshot`).
- If `01_current_page.html` does not exist, extraction fails with the
  `FileNotFoundError` message (`Pipeline.PublicationsOutcome`).

## Model

| member | source | states |
|---|---|---|
| Strings.LastIndex | scraper.py:31 | the position of the last separator, or −1 when there is none; no separator follows it |
| Strings.Split | scraper.py:31 | `str.split` on one character yields at least one piece |
| Strings.SplitLength | scraper.py:31 | the number of pieces is the number of separators plus one |
| Strings.SplitPiecesHaveNoSeparator | scraper.py:31 | no piece contains the separator |
| Strings.JoinSplit | scraper.py:31 | joining the pieces with the separator gives back the string |
| Strings.SplitJoin | scraper.py:31 | splitting a join of separator-free pieces gives back the pieces |
| Strings.SplitAppendPiece | scraper.py:31 | appending a separator and a separator-free piece appends exactly that piece |
| Strings.AfterLastIndex | scraper.py:31 | the text after the last separator holds no separator |
| Strings.CountAtLastIndex | scraper.py:31 | cutting at the last separator removes exactly one separator |
| Strings.CountAbsent | scraper.py:31 | a string with no separator has none to count |
| Strings.LastIndexIs | scraper.py:31 | a separator followed by no other separator is the last one |
| Strings.LastTwoSeparators | scraper.py:31 | a string with two or more separators is `head/n/q` with no separator in `n` or `q` |
| Strings.SecondToLastAfterPrefix | scraper.py:31 | prefixing a string that has two separators does not change element −2 of its split |
| Publications.SplitHasSecondToLast | scraper.py:31 | element −2 exists exactly when the url holds a `/` |
| Publications.FromUrl | scraper.py:28-37 | `IndexError` exactly for a non-empty url without `/`; title kept; no id exactly for the empty url; the id holds no `/`; a url starting with `/` is prefixed with the base, any other is kept |
| Publications.Absolute | scraper.py:33-35 | a url not starting with `/` is kept; under a base that does not start with `/` the result never starts with `/` |
| Publications.AbsoluteIdempotent | scraper.py:33-35 | making a url absolute twice gives the same url as once |
| Publications.OneSlash | scraper.py:31-37 | for `n/q` with no other `/` the record is id `n`, the given title and the absolutised url |
| Publications.IdBetweenLastSlashes | scraper.py:31-37 | for `p/n/q` the record is id `n`, the given title and the absolutised url |
| Publications.ListingLinkId | scraper.py:28-37 | `/<kind>/<number>/` and its absolute form both give id `<number>` and the absolute url |
| Publications.RelativeAndAbsoluteAgree | scraper.py:28-37 | a relative link with two `/` and its absolute form give the same record |
| Publications.SingleSlashIdsDisagree | scraper.py:28-37 | `/w` gives the empty id, while its absolute form gives the host name |
| Publications.BaseUrlParts | scraper.py:29 | the default base is `https:`, `//` and a host without `/` |
| Publications.IdealistaSingleSlash | scraper.py:28-37 | with the default base, `/w` gets the empty id while `https://www.idealista.com/w` gets `www.idealista.com` |
| Stages.Rank | scraper.py:40-42 | every state has a position in the state list |
| Stages.Step | scraper.py:60-75 | firing a trigger: an accepted trigger leads to its destination, never to `init`; `error` is accepted everywhere and leads to `error` |
| Stages.FailAlwaysAccepted | scraper.py:75 | `error` is accepted in every state and leads to `error` |
| Stages.LoadRow | scraper.py:69 | `load` is accepted only in `init`, leading to `loading_page` |
| Stages.HandleCookiesRow | scraper.py:70 | `handle_cookies` is accepted only in `loading_page`, leading to `handling_cookies` |
| Stages.WaitLoadRow | scraper.py:71 | `wait_load` is accepted only in `handling_cookies` and `loading_page` |
| Stages.ExtractRow | scraper.py:72 | `extract` is accepted only in `waiting_page_load` |
| Stages.GetDetailsRow | scraper.py:73 | `get_details` is accepted only in `extracting_publications` |
| Stages.FinishRow | scraper.py:74 | `finish` is accepted only in `extracting_details`, leading to `completed` |
| Stages.FailRow | scraper.py:75 | the `'*'` row accepts `error` from every state |
| Stages.StepIsTable | scraper.py:60-75 | the step relation is exactly a lookup in the table of `add_transition` rows |
| Stages.StepGoesToDestination | scraper.py:69-75 | every accepted trigger leads to its own destination, never to `init` |
| Stages.StepMovesForward | scraper.py:69-74 | every accepted trigger other than `error` moves later in the state list |
| Stages.CompletedOnlyByFinish | scraper.py:74 | `completed` is entered exactly by `finish` from `extracting_details` |
| Stages.TerminalStatesOnlyFail | scraper.py:75 | in `completed` and `error` the only trigger accepted is `error` |
| Stages.Into | scraper.py:69-75 | every state but `init` is the destination of some trigger |
| Stages.DestinationInjective | scraper.py:69-75 | distinct triggers lead to distinct states |
| Stages.EdgeByInto | scraper.py:69-75 | a table edge into `b` is exactly the trigger whose destination is `b` |
| Snapshots.DigitChar | scraper.py:99 | the digit character has the digit's value |
| Snapshots.Decimal | scraper.py:99 | `str(n)`: a non-empty run of digits, one digit long exactly below 10, with no leading zero from 10 on |
| Snapshots.LeadingDigitPositive | scraper.py:99 | digits that do not start with `0` have a positive value |
| Snapshots.DecimalCanonical | scraper.py:99 | every digit string without a leading zero is `Decimal` of its value, so `Decimal` is the canonical decimal form |
| Snapshots.Pad2 | scraper.py:99 | `:02d`: at least two digits, exactly two below 100, starting with `0` exactly below 10 |
| Snapshots.PageName | scraper.py:99 | the file name ends in `.html`; below 100 it is the two counter digits, `_`, the description and `.html` |
| Snapshots.ParseDecimalOfDecimal | scraper.py:99 | reading back the decimal form gives the number |
| Snapshots.ParseDecimalLeadingZero | scraper.py:99 | a leading zero does not change the value |
| Snapshots.PadRoundTrip | scraper.py:99 | `:02d` gives at least two digits, exactly two below 100, reads back as the number, and adds no zero from 10 on |
| Snapshots.PageNameInjective | scraper.py:97-99 | distinct counters or descriptions never share a file name |
| Snapshots.PageNameSingleDigit | scraper.py:99 | counters 1 to 9 are written `0<digit>_<description>.html` |
| Snapshots.FirstCurrentPageName | scraper.py:198-210 | the first `current_page` snapshot is named `01_current_page.html` |
| Extraction.LinkTitle | scraper.py:229-231 | the title is non-empty exactly when the `title` attribute or the stripped link text is non-empty |
| Extraction.Usable | scraper.py:223-235 | a usable article has a link with a non-empty title |
| Extraction.ExtractAll | scraper.py:220-241 | every listing the loop appends has an id and a non-empty title |
| Extraction.ExtractOne | scraper.py:221-241 | an article yields a listing exactly when it has a link, a non-empty href with a `/`, and a non-empty title or text; the listing is `from_url` of that title and href |
| Extraction.UsableIndicesExact | scraper.py:220-241 | the usable positions are increasing, in range, and contain every usable article |
| Extraction.ExtractAllIsFilter | scraper.py:220-241 | the k-th listing comes from the k-th usable article: an order-preserving filter |
| Extraction.ExtractAllSnoc | scraper.py:220-241 | one more article adds what that article yields, at the end |
| Extraction.ExtractAllPrefix | scraper.py:220-241 | one loop iteration appends what the current article yields |
| Extraction.ExtractAllAppend | scraper.py:220-241 | the listings of two pages together are the first page's, then the second's |
| Extraction.AllUsableAllExtracted | scraper.py:220-241 | when every article is usable, none is dropped |
| Extraction.UsableIndicesAreAll | scraper.py:220-241 | when every article is usable, every position is a usable position |
| Probing.QueryFor | scraper.py:108-113 | the driver call is made with the selector text unchanged |
| Probing.QueryForKeepsSelector | scraper.py:108-113 | the selector text is passed through; `find_all` is used exactly when it starts with `//` |
| Probing.ArticleSelectorUsesFindAll | scraper.py:188 | the waiting stage's article selector goes to `find_all` |
| Probing.SingleSlashXPathUsesSelectAll | scraper.py:108-113 | an XPath starting with a single `/` goes to `select_all` |
| Probing.ExtractElements | scraper.py:105-118 | a driver exception gives no elements instead of propagating; otherwise the driver's matches |
| Probing.ProbeAt | scraper.py:188-189 | an attempt finds articles only when the driver answered its `find_all` with that many matches |
| Probing.FirstFound | scraper.py:187-193 | the reported attempt finds elements and every earlier one found none; when none is reported, no attempt found any |
| Probing.FirstFoundAt | scraper.py:187-193 | the first attempt that finds elements is the one reported |
| Probing.FirstFoundNone | scraper.py:187-196 | when no attempt finds elements, none is reported |
| Pipeline.SnapshotReadName | scraper.py:210 | the extraction stage opens `01_current_page.html` |
| Pipeline.FireView | scraper.py:69-75 | firing an accepted trigger enters its destination, records it, and changes nothing else |
| Pipeline.FailView | scraper.py:162-165 | the `except` clauses: set the message, enter `error`, change nothing else |
| Pipeline.SaveView | scraper.py:97-102 | `save_page`: the counter is raised by one, the content is stored under the new counter's name, nothing else changes |
| Pipeline.LoadingStep | scraper.py:148-165 | the loading stage moves forward along a table edge; on an exception it records a message |
| Pipeline.CookiesStep | scraper.py:167-180 | the same for the cookie stage |
| Pipeline.WaitingStep | scraper.py:182-205 | the same for the waiting stage |
| Pipeline.PublicationsStep | scraper.py:207-249 | the same for the extraction stage |
| Pipeline.DetailsStep | scraper.py:251-253 | the same for the details stage |
| Pipeline.Advance | scraper.py:148-253 | each working stage moves forward along a table edge; the state is entered and recorded; a message is set exactly when it fails |
| Pipeline.Drive | scraper.py:148-253 | from a working stage the run ends in a later, non-working state; from any other state nothing happens; the url is kept |
| Pipeline.RunSpec | scraper.py:255-258 | `run` records the url; when `load` is accepted the run ends outside the working states and `init` |
| Pipeline.DriveFromPublications | scraper.py:207-253 | from the extraction stage the run is the extraction handler followed by the details handler |
| Pipeline.LoadingDrive | scraper.py:148-165 | navigation error: fail with its message; lookup error: fail after the pause; button found: cookie stage; absent: waiting stage |
| Pipeline.CookiesDrive | scraper.py:167-180 | a lookup error, a missing button or a click error each fail with the `Error handling cookies: ` message; a successful click goes to the waiting stage |
| Pipeline.WaitingFoundDrive | scraper.py:182-201 | when attempt k is the first to find articles: k+1 probes, k sleeps, one snapshot saved, then extraction |
| Pipeline.WaitingTimeoutDrive | scraper.py:187-205 | when no attempt finds articles: five probes, five sleeps, then failure with the timeout message |
| Pipeline.DriveEnds | scraper.py:148-253 | from any working stage a run ends in `completed` with the message unchanged, or in `error` with a message |
| Pipeline.RunEnds | scraper.py:255-258 | `run` raises exactly outside `init`, changing only the url; otherwise it ends in `completed` or `error` with a message |
| Pipeline.ExtendsTransitive | scraper.py:69-75 | extending a trace is transitive |
| Pipeline.MovesTraced | scraper.py:69-75 | one forward move along an edge extends a trace |
| Pipeline.DriveTraced | scraper.py:148-253 | a run extends the trace: the states entered are in table order and joined by table edges |
| Pipeline.LoadedTraced | scraper.py:255-257 | after `load` from a fresh scraper the trace is `init`, `loading_page` |
| Pipeline.RunFollowsTable | scraper.py:255-258 | a run of a fresh scraper starts in `init`, follows table edges and never enters a state twice |
| Pipeline.ExtendsMovesForward | scraper.py:69-74 | every state entered after a traced state is later in the state list |
| Pipeline.ThirdStateDecides | scraper.py:156-161 | the third state of a run decides whether the cookie stage is ever entered |
| Pipeline.CookieStageIffButtonFound | scraper.py:148-180 | the cookie stage is entered exactly when navigation succeeds and the button is found, and then it is the third state, entered once |
| Pipeline.PublicationsOutcome | scraper.py:207-253 | with the snapshot present the listings are appended and the run completes; without it the run fails with the missing-file message and keeps its listings |
| Pipeline.WaitingFindsArticles | scraper.py:182-201 | if attempt k is the first to find articles: k+1 probes, k sleeps, the counter raised by one, the snapshot written under the next name |
| Pipeline.FirstSnapshotExtracted | scraper.py:182-253 | from a scraper that has saved nothing, finding articles completes the run with the page's listings appended |
| Pipeline.WaitingTimesOut | scraper.py:182-205 | if no attempt finds articles: five probes, five sleeps, nothing saved or listed, failure with the timeout message |
| Pipeline.CookiesFailures | scraper.py:167-180 | each way the cookie stage fails yields its `Error handling cookies: ` message |
| Pipeline.RunThroughConsent | scraper.py:148-174 | with a button found and clicked, a run is the loading, cookie and waiting stages in turn |
| Pipeline.ConsentThenSecondProbe | scraper.py:148-258 | consent clicked, articles found on the second probe: completed, every article listed, two probes, two sleeps, one snapshot `01_current_page.html` |
| Pipeline.ContentNeverAppears | scraper.py:148-205 | no button and no articles: the timeout error, nothing listed, no file written |
| Pipeline.UnsavedWaiting | scraper.py:182-253 | from the waiting stage with nothing saved, at most one snapshot is written and a completed run holds its listings |
| Pipeline.FreshRunReadsItsSnapshot | scraper.py:182-258 | every run of a fresh scraper writes at most one snapshot; the fixed file name extraction opens is that snapshot |
| Pipeline.SaveAll | scraper.py:97-99 | successive saves raise the counter once each and change only the files and the counter |
| Pipeline.SaveAllNames | scraper.py:97-102 | the k-th of successive saves is stored under counter+k+1 with its own content |
| Pipeline.SaveKeeps | scraper.py:97-102 | a save leaves every other file as it was |
| Pipeline.SavedNamesDiffer | scraper.py:97-99 | two successive saves never overwrite each other |
| Pipeline.ThreeSaves | scraper.py:97-102 | three saves from a fresh scraper produce `01_…`, `02_…` and `03_…` |
| Scraper.WebScraper.constructor | scraper.py:44-66 | no listings, no url, no message, no `*.html` files, counter 0, state `init` |
| Scraper.WebScraper.Fire | scraper.py:60-75 | an accepted trigger moves to its destination; one not accepted changes nothing |
| Scraper.WebScraper.FailWith | scraper.py:162-165 | records the message and enters `error` |
| Scraper.WebScraper.SavePage | scraper.py:97-102 | raises the counter and writes the content under the new numbered name |
| Scraper.WebScraper.ProbeForArticles | scraper.py:185-196 | the retry loop makes the probes and sleeps `FirstFound` accounts for and reports its result |
| Scraper.WebScraper.AppendListings | scraper.py:220-241 | appends exactly `ExtractAll` of the articles and changes nothing else |
| Scraper.WebScraper.OnExtractingDetails | scraper.py:251-253 | fires `finish` |
| Scraper.WebScraper.OnExtractingPublications | scraper.py:207-249 | the state `AfterPublications` describes |
| Scraper.WebScraper.OnWaitingPageLoad | scraper.py:182-205 | the state `Drive` describes from the waiting stage |
| Scraper.WebScraper.OnHandlingCookies | scraper.py:167-180 | the state `Drive` describes from the cookie stage |
| Scraper.WebScraper.OnLoadingPage | scraper.py:148-165 | the state `Drive` describes from the loading stage |
| Scraper.WebScraper.Run | scraper.py:255-258 | raises exactly outside `init`; the state `RunSpec` describes |

## Left out

- `WebScraper.create` and `cleanup`: they start and stop the browser
  process. The model receives the browser as a value.
- `extract_text_content`: no handler in `scraper.py` calls it.
- `main.py`, `utils.py` and logging: they are not part of this model.
- Browser and parser behaviour: nodriver and BeautifulSoup are not modelled.
  Their answers are the fields of `Browser`, and a page is the list of
  `article.item` records `soup.select` would return.
- Probes past the scripted answers find nothing (`Probing.ProbeAt`).
- Sleep durations and `random.uniform`: sleeps are only counted.
- Asynchrony: `await` is treated as a plain call, because the handlers run
  strictly one after another.
- File I/O failures: writing a snapshot is not modelled as able to fail.
  Reading the snapshot fails only when the file is missing.
- `page.get_content()` in `save_page` always succeeds in the model. In
  `scraper.py`, if it raises, the counter has already been raised, no file
  is written, and the waiting stage fails with the
  `Error waiting for page load: ` message.
  The session directory holds content, not HTML text, and the purge of
  `*.html` files at construction gives the empty map.
- `MachineError` inside the handlers: each handler method requires its own
  state, which is the only state its caller reaches it in. Only `run` can
  meet an unaccepted trigger, and that case is modelled (`Run` reports it).
- Scraper.WebScraper.Fire: a rejected trigger is reported as
  `accepted == false`, not as a raised `MachineError`.
- Publications.FromUrl: strings are sequences of characters, and Python's
  `str` type annotation on `id` is not enforced. An empty url gives id
  `None`, as the code does.
