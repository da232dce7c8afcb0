/**
 * `extract_elements` and the retry search of `on_waiting_page_load`: which
 * driver query a selector becomes, and which attempt first finds articles.
 */
module Probing {
  import opened Wrappers

  /** The driver call made for a selector: `page.find_all` or `page.select_all`. */
  datatype Query = FindAll(pattern: string) | SelectAll(pattern: string)

  /** The driver's reply to one query: how many elements matched, or an exception. */
  datatype Answer = Matches(count: nat) | Raised

  /** The selector the waiting stage probes with. */
  const ARTICLE_SELECTOR: string := "//article[contains(@class, 'item')]"

  /** `max_retries` of the waiting stage. */
  const MAX_RETRIES: nat := 5

  /** A selector that starts with `//` is sent to `find_all`; any other to `select_all`. */
  function QueryFor(selector: string): (q: Query)
    ensures q.pattern == selector
  {
    if |selector| >= 2 && selector[..2] == "//" then FindAll(selector) else SelectAll(selector)
  }

  /**
   * `extract_elements(selector)` against a driver that answers `driver`:
   * the number of elements returned, where an exception returns `[]`.
   */
  function ExtractElements(selector: string, driver: Query -> Answer): (found: nat)
    ensures driver(QueryFor(selector)).Raised? ==> found == 0
    ensures driver(QueryFor(selector)).Matches? ==> found == driver(QueryFor(selector)).count
  {
    match driver(QueryFor(selector))
    case Matches(n) => n
    case Raised => 0
  }

  /** The selector dispatch keeps the selector text and picks the call by its first two characters. */
  lemma QueryForKeepsSelector(selector: string)
    ensures QueryFor(selector).pattern == selector
    ensures QueryFor(selector).FindAll? <==> |selector| >= 2 && selector[0] == '/' && selector[1] == '/'
  {
  }

  /** The waiting stage's probes go to `find_all`. */
  lemma ArticleSelectorUsesFindAll()
    ensures QueryFor(ARTICLE_SELECTOR) == FindAll(ARTICLE_SELECTOR)
  {
    assert ARTICLE_SELECTOR[..2] == "//";
  }

  /** An XPath with a single leading `/` is not recognised and is sent to `select_all`. */
  lemma SingleSlashXPathUsesSelectAll()
    ensures QueryFor("/html/body").SelectAll?
  {
    assert "/html/body"[1] == 'h';
  }

  /** Elements found by attempt `attempt`; attempts past the scripted answers find none. */
  function ProbeAt(probes: seq<Query -> Answer>, attempt: nat): (found: nat)
    ensures found > 0 ==> attempt < |probes| && probes[attempt](FindAll(ARTICLE_SELECTOR)) == Matches(found)
  {
    ArticleSelectorUsesFindAll();
    if attempt < |probes| then ExtractElements(ARTICLE_SELECTOR, probes[attempt]) else 0
  }

  /** The first attempt in `from..max-1` that finds an element, if any. */
  function FirstFound(probes: seq<Query -> Answer>, from: nat, max: nat): (r: Option<nat>)
    ensures r.Some? ==> from <= r.value < max && ProbeAt(probes, r.value) > 0
    ensures r.Some? ==> forall j :: from <= j < r.value ==> ProbeAt(probes, j) == 0
    ensures r.None? ==> forall j :: from <= j < max ==> ProbeAt(probes, j) == 0
    decreases max - from
  {
    if from >= max then None
    else if ProbeAt(probes, from) > 0 then Some(from)
    else FirstFound(probes, from + 1, max)
  }

  /** The attempt that finds elements after a run of empty ones is the one `FirstFound` reports. */
  lemma FirstFoundAt(probes: seq<Query -> Answer>, from: nat, max: nat, k: nat)
    requires from <= k < max && ProbeAt(probes, k) > 0
    requires forall j :: from <= j < k ==> ProbeAt(probes, j) == 0
    ensures FirstFound(probes, from, max) == Some(k)
  {
  }

  /** When every attempt finds nothing, `FirstFound` reports none. */
  lemma FirstFoundNone(probes: seq<Query -> Answer>, from: nat, max: nat)
    requires forall j :: from <= j < max ==> ProbeAt(probes, j) == 0
    ensures FirstFound(probes, from, max) == None
  {
  }
}
