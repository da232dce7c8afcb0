/**
 * The run of `WebScraper` as pure functions over the observable state of
 * the scraper: one function per stage handler, each ending in the handler
 * it calls next. The class in module Scraper is proved to follow them.
 */
module Pipeline {
  import opened Wrappers
  import opened Stages
  import opened Snapshots
  import opened Publications
  import opened Extraction
  import opened Probing

  /** What `page.find` returns for the consent button: an element, nothing, or an exception. */
  datatype Search = Found | Absent | SearchRaised(message: string)

  /** A driver action that either completes or raises with a message. */
  datatype Action = Done | ActionRaised(message: string)

  /**
   * The browser seen by one run: the navigation, the consent-button lookups
   * of the loading and the cookie stage, the click, the answer to each
   * waiting-stage probe, and the page content saved as a snapshot, given as
   * the `article.item` records it holds.
   */
  datatype Browser = Browser(
    navigation: Action,
    buttonOnLoad: Search,
    buttonOnHandle: Search,
    click: Action,
    probes: seq<Query -> Answer>,
    content: seq<Article>)

  const CURRENT_PAGE: string := "current_page"
  const COOKIES_PREFIX: string := "Error handling cookies: "
  const WAITING_PREFIX: string := "Error waiting for page load: "
  const BUTTON_NOT_FOUND: string := "Cookie button not found"
  const TIMEOUT: string := "Timeout waiting for articles to appear"
  /**
   * The snapshot the extraction stage opens, whatever was saved: the name of
   * the first `current_page` snapshot (see `SnapshotReadName`).
   */
  const SNAPSHOT_READ: string := PageName(1, CURRENT_PAGE)
  /** `str()` of the `FileNotFoundError` raised when that snapshot does not exist. */
  const SNAPSHOT_MISSING: string := "[Errno 2] No such file or directory: 'session/01_current_page.html'"

  /** The file the extraction stage opens is `01_current_page.html`. */
  lemma SnapshotReadName()
    ensures SNAPSHOT_READ == "01_current_page.html"
  {
    FirstCurrentPageName();
  }

  /**
   * The scraper's fields (`state`, `publications`, `current_url`,
   * `error_message`, `page_counter`), the `*.html` files of the session
   * directory, and three counters kept for the proofs: the states entered so
   * far, the probes made and the sleeps taken.
   */
  datatype ScraperView = ScraperView(
    state: State,
    publications: seq<Publication>,
    currentUrl: Option<string>,
    errorMessage: Option<string>,
    pageCounter: nat,
    files: map<string, seq<Article>>,
    visited: seq<State>,
    probes: nat,
    sleeps: nat)

  /** A scraper right after `__init__`: the directory purged and the counter at 0. */
  function Fresh(): ScraperView
  {
    ScraperView(Init, [], None, None, 0, map[], [Init], 0, 0)
  }

  /** Firing an accepted trigger: the state changes and is recorded as entered. */
  function FireView(v: ScraperView, t: Trigger): (r: ScraperView)
    requires Step(v.state, t).Some?
    ensures r.state == Destination(t) && r.visited == v.visited + [Destination(t)]
    ensures r == v.(state := r.state, visited := r.visited)
  {
    var s := Step(v.state, t).value;
    v.(state := s, visited := v.visited + [s])
  }

  /** The `except` of every handler: set `error_message`, then fire `error`. */
  function FailView(v: ScraperView, message: string): (r: ScraperView)
    ensures r.state == Error && r.errorMessage == Some(message) && r.visited == v.visited + [Error]
    ensures r == v.(state := Error, errorMessage := r.errorMessage, visited := r.visited)
  {
    FailAlwaysAccepted(v.state);
    FireView(v.(errorMessage := Some(message)), Fail)
  }

  /** `save_page(description)`: raise the counter, then write the snapshot under its name. */
  function SaveView(v: ScraperView, description: string, content: seq<Article>): (r: ScraperView)
    ensures r.pageCounter == v.pageCounter + 1
    ensures PageName(r.pageCounter, description) in r.files
    ensures r.files[PageName(r.pageCounter, description)] == content
    ensures r == v.(pageCounter := r.pageCounter, files := r.files)
  {
    v.(pageCounter := v.pageCounter + 1,
       files := v.files[PageName(v.pageCounter + 1, description) := content])
  }

  /**
   * What every handler does to the state: it moves to a later state of
   * `STATES` by a transition of the table, enters exactly that one state,
   * keeps the url, and sets the message exactly when it fails.
   */
  predicate Moves(v: ScraperView, r: ScraperView)
  {
    && Rank(v.state) < Rank(r.state)
    && r.state != Init && Step(v.state, Into(r.state)) == Some(r.state)
    && r.visited == v.visited + [r.state]
    && r.currentUrl == v.currentUrl
    && (r.state == Error ==> r.errorMessage.Some?)
    && (r.state != Error ==> r.errorMessage == v.errorMessage)
  }

  // ---------------------------------------------------------------------
  // Each handler's own work, up to the trigger it fires.

  /** `on_loading_page`: navigate, sleep once, then branch on the consent button. */
  function LoadingStep(v: ScraperView, b: Browser): (r: ScraperView)
    requires v.state == LoadingPage
    ensures Moves(v, r)
  {
    match b.navigation
    case ActionRaised(m) => FailView(v, m)
    case Done =>
      var slept := v.(sleeps := v.sleeps + 1);
      match b.buttonOnLoad
      case SearchRaised(m) => FailView(slept, m)
      case Found => FireView(slept, HandleCookies)
      case Absent => FireView(slept, WaitLoad)
  }

  /** `on_handling_cookies`: look the button up again and click it. */
  function CookiesStep(v: ScraperView, b: Browser): (r: ScraperView)
    requires v.state == HandlingCookies
    ensures Moves(v, r)
  {
    match b.buttonOnHandle
    case SearchRaised(m) => FailView(v, COOKIES_PREFIX + m)
    case Absent => FailView(v, COOKIES_PREFIX + BUTTON_NOT_FOUND)
    case Found =>
      match b.click
      case ActionRaised(m) => FailView(v, COOKIES_PREFIX + m)
      case Done => FireView(v, WaitLoad)
  }

  /**
   * `on_waiting_page_load`: up to `MAX_RETRIES` probes with a sleep after
   * each empty one; on success save the page as `current_page`.
   */
  function WaitingStep(v: ScraperView, b: Browser): (r: ScraperView)
    requires v.state == WaitingPageLoad
    ensures Moves(v, r)
  {
    match FirstFound(b.probes, 0, MAX_RETRIES)
    case None =>
      FailView(v.(probes := v.probes + MAX_RETRIES, sleeps := v.sleeps + MAX_RETRIES),
               WAITING_PREFIX + TIMEOUT)
    case Some(k) =>
      var probed := v.(probes := v.probes + k + 1, sleeps := v.sleeps + k);
      FireView(SaveView(probed, CURRENT_PAGE, b.content), Extract)
  }

  /** `on_extracting_publications`: read snapshot 01 and append its listings. */
  function PublicationsStep(v: ScraperView): (r: ScraperView)
    requires v.state == ExtractingPublications
    ensures Moves(v, r)
  {
    if SNAPSHOT_READ in v.files then
      FireView(v.(publications := v.publications + ExtractAll(v.files[SNAPSHOT_READ])), GetDetails)
    else
      FailView(v, SNAPSHOT_MISSING)
  }

  /** `on_extracting_details`. */
  function DetailsStep(v: ScraperView): (r: ScraperView)
    requires v.state == ExtractingDetails
    ensures Moves(v, r)
  {
    FireView(v, Finish)
  }

  /** The states whose handler runs as part of a run: all but `init`, `error` and `completed`. */
  predicate Working(s: State)
  {
    s == LoadingPage || s == HandlingCookies || s == WaitingPageLoad
    || s == ExtractingPublications || s == ExtractingDetails
  }

  /** The handler of the current state, up to the trigger it fires. */
  function Advance(v: ScraperView, b: Browser): (r: ScraperView)
    requires Working(v.state)
    ensures Moves(v, r)
  {
    if v.state == LoadingPage then LoadingStep(v, b)
    else if v.state == HandlingCookies then CookiesStep(v, b)
    else if v.state == WaitingPageLoad then WaitingStep(v, b)
    else if v.state == ExtractingPublications then PublicationsStep(v)
    else DetailsStep(v)
  }

  /**
   * The rest of a run from `v`: each handler ends by calling the handler of
   * the state it moved to, until the run leaves the working states.
   */
  function Drive(v: ScraperView, b: Browser): (r: ScraperView)
    ensures !Working(v.state) ==> r == v
    ensures Working(v.state) ==> Rank(v.state) < Rank(r.state) && !Working(r.state)
    ensures r.currentUrl == v.currentUrl
    decreases |STATES| - Rank(v.state)
  {
    if Working(v.state) then Drive(Advance(v, b), b) else v
  }

  /** `run(start_url)` raises out of the call when `load` is not accepted. */
  predicate RunRaises(v: ScraperView)
  {
    Step(v.state, Load).None?
  }

  /** `run(start_url)`: record the url, fire `load`, enter the loading stage. */
  function RunSpec(v: ScraperView, url: string, b: Browser): (r: ScraperView)
    ensures r.currentUrl == Some(url)
    ensures !RunRaises(v) ==> !Working(r.state) && r.state != Init
  {
    var v1 := v.(currentUrl := Some(url));
    if RunRaises(v) then v1 else Drive(FireView(v1, Load), b)
  }

  /** The extraction stages use no browser: what remains of a run from there. */
  function AfterPublications(v: ScraperView): ScraperView
    requires v.state == ExtractingPublications
  {
    var r := PublicationsStep(v);
    if r.state == ExtractingDetails then DetailsStep(r) else r
  }

  lemma DriveFromPublications(v: ScraperView, b: Browser)
    requires v.state == ExtractingPublications
    ensures Drive(v, b) == AfterPublications(v)
  {
    var r := Advance(v, b);
    if r.state == ExtractingDetails {
      assert Drive(r, b) == Drive(Advance(r, b), b);
    }
  }

  /**
   * The rest of a run from the loading stage, by outcome; `w` is the
   * scraper after a navigation that did not raise and the sleep after it.
   */
  lemma LoadingDrive(v: ScraperView, b: Browser, w: ScraperView)
    requires v.state == LoadingPage
    requires w == v.(sleeps := v.sleeps + 1)
    ensures b.navigation.ActionRaised? ==> Drive(v, b) == FailView(v, b.navigation.message)
    ensures b.navigation.Done? && b.buttonOnLoad.SearchRaised? ==>
      Drive(v, b) == FailView(w, b.buttonOnLoad.message)
    ensures b.navigation.Done? && b.buttonOnLoad.Found? ==>
      Drive(v, b) == Drive(FireView(w, HandleCookies), b)
    ensures b.navigation.Done? && b.buttonOnLoad.Absent? ==>
      Drive(v, b) == Drive(FireView(w, WaitLoad), b)
  {
    var a := Advance(v, b);
    assert a == LoadingStep(v, b);
    assert Drive(v, b) == Drive(a, b);
    if b.navigation.Done? {
      match b.buttonOnLoad
      case SearchRaised(m) => assert a == FailView(w, m);
      case Found => assert a == FireView(w, HandleCookies);
      case Absent => assert a == FireView(w, WaitLoad);
    }
  }

  /** The rest of a run from the consent stage, by outcome. */
  lemma CookiesDrive(v: ScraperView, b: Browser)
    requires v.state == HandlingCookies
    ensures b.buttonOnHandle.SearchRaised? ==>
      Drive(v, b) == FailView(v, COOKIES_PREFIX + b.buttonOnHandle.message)
    ensures b.buttonOnHandle.Absent? ==>
      Drive(v, b) == FailView(v, COOKIES_PREFIX + BUTTON_NOT_FOUND)
    ensures b.buttonOnHandle.Found? && b.click.ActionRaised? ==>
      Drive(v, b) == FailView(v, COOKIES_PREFIX + b.click.message)
    ensures b.buttonOnHandle.Found? && b.click.Done? ==>
      Drive(v, b) == Drive(FireView(v, WaitLoad), b)
  {
    assert Drive(v, b) == Drive(Advance(v, b), b);
  }

  /**
   * The rest of a run from the waiting stage when attempt `k` is the first
   * to find articles, from `w`, the scraper after those `k + 1` probes.
   */
  lemma WaitingFoundDrive(v: ScraperView, b: Browser, k: nat, w: ScraperView)
    requires v.state == WaitingPageLoad
    requires FirstFound(b.probes, 0, MAX_RETRIES) == Some(k)
    requires w == v.(probes := v.probes + k + 1, sleeps := v.sleeps + k)
    ensures Drive(v, b) == AfterPublications(FireView(SaveView(w, CURRENT_PAGE, b.content), Extract))
  {
    var a := Advance(v, b);
    assert a == WaitingStep(v, b);
    assert a == FireView(SaveView(w, CURRENT_PAGE, b.content), Extract);
    assert Drive(v, b) == Drive(a, b);
    DriveFromPublications(a, b);
  }

  /** The rest of a run from the waiting stage when no attempt finds articles. */
  lemma WaitingTimeoutDrive(v: ScraperView, b: Browser)
    requires v.state == WaitingPageLoad
    requires FirstFound(b.probes, 0, MAX_RETRIES) == None
    ensures Drive(v, b) ==
      FailView(v.(probes := v.probes + MAX_RETRIES, sleeps := v.sleeps + MAX_RETRIES), WAITING_PREFIX + TIMEOUT)
  {
    var a := Advance(v, b);
    assert Drive(v, b) == Drive(a, b);
  }

  // ---------------------------------------------------------------------
  // The run ends in `Completed` or `Error`, with a message on error.

  /** `r` is a terminal outcome of a run that started with message `m`. */
  predicate EndsFrom(m: Option<string>, r: ScraperView)
  {
    || (r.state == Completed && r.errorMessage == m)
    || (r.state == Error && r.errorMessage.Some?)
  }

  /**
   * From any working state the run ends in `completed` with the message
   * untouched, or in `error` with a message set.
   */
  lemma {:induction false} DriveEnds(v: ScraperView, b: Browser)
    requires Working(v.state)
    ensures EndsFrom(v.errorMessage, Drive(v, b))
    decreases |STATES| - Rank(v.state)
  {
    var r := Advance(v, b);
    if Working(r.state) {
      DriveEnds(r, b);
    }
  }

  /**
   * `run` raises exactly when the scraper is not in `init`, and then only
   * records the url; otherwise it ends in `completed` with the message
   * untouched, or in `error` with a message set.
   */
  lemma RunEnds(v: ScraperView, url: string, b: Browser)
    ensures RunRaises(v) <==> v.state != Init
    ensures !RunRaises(v) ==> EndsFrom(v.errorMessage, RunSpec(v, url, b))
    ensures RunRaises(v) ==> RunSpec(v, url, b) == v.(currentUrl := Some(url))
  {
    if v.state == Init {
      DriveEnds(FireView(v.(currentUrl := Some(url)), Load), b);
    }
  }

  // ---------------------------------------------------------------------
  // The states entered follow the table and never repeat.

  /**
   * The states entered so far end in the current state, have strictly
   * increasing positions in `STATES` (so none repeats), and each follows the
   * one before by a transition of the table.
   */
  ghost predicate Traced(v: ScraperView)
  {
    && |v.visited| >= 1
    && v.visited[|v.visited| - 1] == v.state
    && (forall i, j :: 0 <= i < j < |v.visited| ==> Rank(v.visited[i]) < Rank(v.visited[j]))
    && (forall i :: 0 < i < |v.visited| ==> Edge(v.visited[i - 1], v.visited[i]))
  }

  /** `r` extends the states entered in `v` and keeps them traced. */
  ghost predicate Extends(v: ScraperView, r: ScraperView)
  {
    && Traced(r)
    && |v.visited| <= |r.visited|
    && r.visited[..|v.visited|] == v.visited
  }

  lemma ExtendsTransitive(a: ScraperView, b: ScraperView, c: ScraperView)
    requires Extends(a, b) && Extends(b, c)
    ensures Extends(a, c)
  {
    assert c.visited[..|a.visited|] == c.visited[..|b.visited|][..|a.visited|];
  }

  /** A move keeps the trace: the state entered follows by an edge and lies later. */
  lemma MovesTraced(v: ScraperView, r: ScraperView)
    requires Traced(v) && Moves(v, r)
    ensures Extends(v, r)
  {
    var n := |v.visited|;
    EdgeByInto(v.state, r.state);
    assert r.visited[..n] == v.visited;
    assert r.visited[n] == r.state;
    forall i, j | 0 <= i < j < |r.visited| ensures Rank(r.visited[i]) < Rank(r.visited[j]) {
      assert r.visited[i] == v.visited[i];
      if j < n {
        assert r.visited[j] == v.visited[j];
      } else if i < n - 1 {
        assert Rank(v.visited[i]) < Rank(v.visited[n - 1]);
      }
    }
    forall i | 0 < i < |r.visited| ensures Edge(r.visited[i - 1], r.visited[i]) {
      if i < n {
        assert r.visited[i - 1] == v.visited[i - 1] && r.visited[i] == v.visited[i];
      }
    }
  }

  /** The rest of a run keeps the trace. */
  lemma {:induction false} DriveTraced(v: ScraperView, b: Browser)
    requires Traced(v)
    ensures Extends(v, Drive(v, b))
    decreases |STATES| - Rank(v.state)
  {
    if Working(v.state) {
      var r := Advance(v, b);
      MovesTraced(v, r);
      DriveTraced(r, b);
      ExtendsTransitive(v, r, Drive(r, b));
    } else {
      assert v.visited[..|v.visited|] == v.visited;
    }
  }

  /** The trace of a run of a fresh scraper right after `load`. */
  lemma LoadedTraced(url: string)
    ensures Traced(FireView(Fresh().(currentUrl := Some(url)), Load))
  {
    var v := FireView(Fresh().(currentUrl := Some(url)), Load);
    assert v.visited == [Init, LoadingPage];
    EdgeByInto(Init, LoadingPage);
  }

  /**
   * A run of a fresh scraper enters its states along transitions of the
   * table, starting from `init`, and never enters a state twice.
   */
  lemma RunFollowsTable(url: string, b: Browser)
    ensures var r := RunSpec(Fresh(), url, b);
      && |r.visited| >= 2
      && r.visited[0] == Init
      && (forall i :: 0 < i < |r.visited| ==> Edge(r.visited[i - 1], r.visited[i]))
      && (forall i, j :: 0 <= i < j < |r.visited| ==> r.visited[i] != r.visited[j])
  {
    var loading := FireView(Fresh().(currentUrl := Some(url)), Load);
    LoadedTraced(url);
    DriveTraced(loading, b);
    var r := RunSpec(Fresh(), url, b);
    assert r.visited[..2] == [Init, LoadingPage];
    assert r.visited[0] == r.visited[..2][0];
  }

  /** Every state entered after `v` lies later in `STATES` than the state of `v`. */
  lemma ExtendsMovesForward(v: ScraperView, r: ScraperView)
    requires Traced(v) && Extends(v, r)
    ensures forall i :: |v.visited| <= i < |r.visited| ==> Rank(v.state) < Rank(r.visited[i])
  {
    var n := |v.visited|;
    assert r.visited[n - 1] == v.visited[n - 1] == v.state;
  }

  /**
   * After `init` and the loading stage, the third state entered decides
   * whether the consent stage is ever entered: every later state lies
   * further along `STATES`.
   */
  lemma ThirdStateDecides(a: ScraperView, r: ScraperView)
    requires Traced(a) && Extends(a, r)
    requires a.visited == [Init, LoadingPage, a.state]
    ensures |r.visited| >= 3 && r.visited[2] == a.state
    ensures HandlingCookies in r.visited <==> a.state == HandlingCookies
  {
    assert Rank(a.visited[1]) < Rank(a.visited[2]);
    ExtendsMovesForward(a, r);
    assert r.visited[..3] == a.visited;
    assert r.visited[2] == a.visited[2];
    forall i | 0 <= i < |r.visited| && a.state != HandlingCookies
      ensures r.visited[i] != HandlingCookies
    {
      if i < 3 {
        assert r.visited[i] == a.visited[i];
      }
    }
  }

  /**
   * In a run of a fresh scraper the consent stage is entered exactly when
   * the page loaded and the button was found on it; it is then the third
   * state entered, and (see `RunFollowsTable`) entered once.
   */
  lemma CookieStageIffButtonFound(url: string, b: Browser)
    ensures var r := RunSpec(Fresh(), url, b);
      && (HandlingCookies in r.visited <==> b.navigation.Done? && b.buttonOnLoad.Found?)
      && (b.navigation.Done? && b.buttonOnLoad.Found? ==> |r.visited| >= 3 && r.visited[2] == HandlingCookies)
  {
    var loading := FireView(Fresh().(currentUrl := Some(url)), Load);
    LoadedTraced(url);
    var a := Advance(loading, b);
    assert a == LoadingStep(loading, b);
    assert a.state == HandlingCookies <==> b.navigation.Done? && b.buttonOnLoad.Found?;
    MovesTraced(loading, a);
    var r := RunSpec(Fresh(), url, b);
    assert r == Drive(loading, b);
    assert r == Drive(a, b);
    DriveTraced(a, b);
    ThirdStateDecides(a, r);
  }

  // ---------------------------------------------------------------------
  // What each stage produces.

  /**
   * The extraction stage reads snapshot 01: when it exists, the listings of
   * its usable articles are appended after the earlier ones and the run
   * completes (even with none appended); when it does not, the run fails.
   * Neither touches the counter, the files, the probes or the sleeps.
   * (`DriveFromPublications` makes this the rest of any run from there.)
   */
  lemma PublicationsOutcome(v: ScraperView)
    requires v.state == ExtractingPublications
    ensures var r := AfterPublications(v);
      SNAPSHOT_READ in v.files ==>
        && r.state == Completed
        && r.publications == v.publications + ExtractAll(v.files[SNAPSHOT_READ])
        && r.visited == v.visited + [ExtractingDetails, Completed]
        && r.errorMessage == v.errorMessage
    ensures var r := AfterPublications(v);
      SNAPSHOT_READ !in v.files ==>
        && r.state == Error
        && r.errorMessage == Some(SNAPSHOT_MISSING)
        && r.publications == v.publications
    ensures var r := AfterPublications(v);
      r.pageCounter == v.pageCounter && r.files == v.files && r.probes == v.probes && r.sleeps == v.sleeps
  {
  }

  /**
   * If attempt `k` (counting from 0) is the first of the `MAX_RETRIES`
   * probes to find articles, exactly `k + 1` probes and `k` sleeps happen,
   * one page is saved as `current_page`, and `extract` fires.
   */
  lemma WaitingFindsArticles(v: ScraperView, b: Browser, k: nat)
    requires v.state == WaitingPageLoad
    requires k < MAX_RETRIES && ProbeAt(b.probes, k) > 0
    requires forall j :: 0 <= j < k ==> ProbeAt(b.probes, j) == 0
    ensures var r := Drive(v, b);
      && r.probes == v.probes + k + 1
      && r.sleeps == v.sleeps + k
      && r.pageCounter == v.pageCounter + 1
      && r.files == v.files[PageName(v.pageCounter + 1, CURRENT_PAGE) := b.content]
  {
    FirstFoundAt(b.probes, 0, MAX_RETRIES, k);
    var w := v.(probes := v.probes + k + 1, sleeps := v.sleeps + k);
    var ready := FireView(SaveView(w, CURRENT_PAGE, b.content), Extract);
    assert ready.pageCounter == v.pageCounter + 1 && ready.probes == w.probes && ready.sleeps == w.sleeps;
    assert ready.files == v.files[PageName(v.pageCounter + 1, CURRENT_PAGE) := b.content];
    WaitingFoundDrive(v, b, k, w);
    PublicationsOutcome(ready);
  }

  /**
   * The extraction that follows reads snapshot 01 whichever snapshot was
   * just saved: on the first save the two coincide, and the run completes
   * with the listings of the saved page appended.
   */
  lemma FirstSnapshotExtracted(v: ScraperView, b: Browser, k: nat)
    requires v.state == WaitingPageLoad && v.pageCounter == 0
    requires FirstFound(b.probes, 0, MAX_RETRIES) == Some(k)
    ensures var r := Drive(v, b);
      && r.state == Completed
      && r.errorMessage == v.errorMessage
      && r.publications == v.publications + ExtractAll(b.content)
      && r.visited == v.visited + [ExtractingPublications, ExtractingDetails, Completed]
  {
    var w := v.(probes := v.probes + k + 1, sleeps := v.sleeps + k);
    var saved := SaveView(w, CURRENT_PAGE, b.content);
    assert saved.pageCounter == 1 && SNAPSHOT_READ in saved.files && saved.files[SNAPSHOT_READ] == b.content;
    var ready := FireView(saved, Extract);
    assert ready.state == ExtractingPublications && ready.visited == v.visited + [ExtractingPublications];
    assert ready.errorMessage == v.errorMessage && ready.publications == v.publications;
    assert ready.files == saved.files;
    WaitingFoundDrive(v, b, k, w);
    PublicationsOutcome(ready);
  }

  /**
   * If none of the `MAX_RETRIES` probes finds articles (an exception counts
   * as finding none), exactly `MAX_RETRIES` probes and as many sleeps
   * happen, nothing is saved, and the run fails with the timeout message.
   */
  lemma WaitingTimesOut(v: ScraperView, b: Browser)
    requires v.state == WaitingPageLoad
    requires forall j :: 0 <= j < MAX_RETRIES ==> ProbeAt(b.probes, j) == 0
    ensures var r := Drive(v, b);
      && r.probes == v.probes + MAX_RETRIES
      && r.sleeps == v.sleeps + MAX_RETRIES
      && r.pageCounter == v.pageCounter
      && r.files == v.files
      && r.publications == v.publications
      && r.state == Error
      && r.errorMessage == Some(WAITING_PREFIX + TIMEOUT)
  {
    FirstFoundNone(b.probes, 0, MAX_RETRIES);
    var a := Advance(v, b);
    assert Drive(v, b) == Drive(a, b);
  }

  /** The three ways the consent stage fails, each with its message. */
  lemma CookiesFailures(v: ScraperView, b: Browser)
    requires v.state == HandlingCookies
    ensures var r := Drive(v, b);
      b.buttonOnHandle.Absent? ==>
        r.state == Error && r.errorMessage == Some(COOKIES_PREFIX + BUTTON_NOT_FOUND)
    ensures var r := Drive(v, b);
      b.buttonOnHandle.SearchRaised? ==>
        r.state == Error && r.errorMessage == Some(COOKIES_PREFIX + b.buttonOnHandle.message)
    ensures var r := Drive(v, b);
      b.buttonOnHandle.Found? && b.click.ActionRaised? ==>
        r.state == Error && r.errorMessage == Some(COOKIES_PREFIX + b.click.message)
  {
    var a := Advance(v, b);
    assert Drive(v, b) == Drive(a, b);
  }

  // ---------------------------------------------------------------------
  // Whole runs.

  /** With the consent button found and clicked, a run reaches the waiting stage after one sleep. */
  lemma RunThroughConsent(url: string, b: Browser)
    requires b.navigation.Done? && b.buttonOnLoad.Found? && b.buttonOnHandle.Found? && b.click.Done?
    ensures RunSpec(Fresh(), url, b) ==
      Drive(ScraperView(WaitingPageLoad, [], Some(url), None, 0, map[],
                        [Init, LoadingPage, HandlingCookies, WaitingPageLoad], 0, 1), b)
  {
    var loading := FireView(Fresh().(currentUrl := Some(url)), Load);
    var cookies := Advance(loading, b);
    assert cookies == FireView(loading.(sleeps := 1), HandleCookies);
    var waiting := Advance(cookies, b);
    assert waiting == FireView(cookies, WaitLoad);
    assert waiting == ScraperView(WaitingPageLoad, [], Some(url), None, 0, map[],
                                  [Init, LoadingPage, HandlingCookies, WaitingPageLoad], 0, 1);
    assert RunSpec(Fresh(), url, b) == Drive(loading, b);
    assert Drive(loading, b) == Drive(cookies, b);
    assert Drive(cookies, b) == Drive(waiting, b);
  }

  /**
   * Consent button present and dismissible, articles found by the second
   * probe, every article usable: the run completes with one listing per
   * article, after two probes, two sleeps (one after loading, one after the
   * empty probe) and a single snapshot, `01_current_page.html`.
   */
  lemma ConsentThenSecondProbe(url: string, b: Browser)
    requires b.navigation.Done? && b.buttonOnLoad.Found? && b.buttonOnHandle.Found? && b.click.Done?
    requires ProbeAt(b.probes, 0) == 0 && ProbeAt(b.probes, 1) > 0
    requires forall i :: 0 <= i < |b.content| ==> Usable(b.content[i])
    ensures var r := RunSpec(Fresh(), url, b);
      && r.state == Completed
      && r.errorMessage == None
      && |r.publications| == |b.content|
      && r.probes == 2 && r.sleeps == 2
      && r.pageCounter == 1
      && r.files == map[SNAPSHOT_READ := b.content]
      && r.visited == [Init, LoadingPage, HandlingCookies, WaitingPageLoad,
                       ExtractingPublications, ExtractingDetails, Completed]
  {
    var waiting := ScraperView(WaitingPageLoad, [], Some(url), None, 0, map[],
                               [Init, LoadingPage, HandlingCookies, WaitingPageLoad], 0, 1);
    RunThroughConsent(url, b);
    WaitingFindsArticles(waiting, b, 1);
    FirstSnapshotExtracted(waiting, b, 1);
    AllUsableAllExtracted(b.content);
  }

  /**
   * Content never appears (page loaded, no consent button): the run fails
   * with the timeout message and no listings, after five probes and six
   * sleeps, without saving anything.
   */
  lemma ContentNeverAppears(url: string, b: Browser)
    requires b.navigation.Done? && b.buttonOnLoad.Absent?
    requires forall j :: 0 <= j < MAX_RETRIES ==> ProbeAt(b.probes, j) == 0
    ensures var r := RunSpec(Fresh(), url, b);
      && r.state == Error
      && r.errorMessage == Some(WAITING_PREFIX + TIMEOUT)
      && r.publications == []
      && r.probes == MAX_RETRIES && r.sleeps == MAX_RETRIES + 1
      && r.pageCounter == 0 && r.files == map[]
  {
    var loading := FireView(Fresh().(currentUrl := Some(url)), Load);
    var waiting := Advance(loading, b);
    assert waiting == FireView(loading.(sleeps := 1), WaitLoad);
    assert Drive(loading, b) == Drive(waiting, b);
    WaitingTimesOut(waiting, b);
  }

  /**
   * At most one snapshot exists, the page content saved as
   * `01_current_page.html`, and a completed run holds exactly its listings.
   */
  predicate OneSnapshot(r: ScraperView, content: seq<Article>)
  {
    && r.pageCounter <= 1
    && r.files == (if r.pageCounter == 1 then map[SNAPSHOT_READ := content] else map[])
    && (r.state == Completed ==> r.pageCounter == 1 && r.publications == ExtractAll(content))
  }

  /** From the waiting stage of a scraper that has saved nothing and listed nothing yet. */
  lemma UnsavedWaiting(v: ScraperView, b: Browser)
    requires v.state == WaitingPageLoad
    requires v.pageCounter == 0 && v.files == map[] && v.publications == []
    ensures OneSnapshot(Drive(v, b), b.content)
  {
    match FirstFound(b.probes, 0, MAX_RETRIES)
    case None =>
      WaitingTimesOut(v, b);
    case Some(k) =>
      WaitingFindsArticles(v, b, k);
      FirstSnapshotExtracted(v, b, k);
      assert PageName(v.pageCounter + 1, CURRENT_PAGE) == SNAPSHOT_READ;
  }

  /**
   * Every run of a fresh scraper writes at most one snapshot, and the file
   * the extraction stage opens by its fixed name is that snapshot: a
   * completed run holds exactly the listings of the page it saved.
   */
  lemma FreshRunReadsItsSnapshot(url: string, b: Browser)
    ensures OneSnapshot(RunSpec(Fresh(), url, b), b.content)
  {
    var loading := FireView(Fresh().(currentUrl := Some(url)), Load);
    assert RunSpec(Fresh(), url, b) == Drive(loading, b);
    var w := loading.(sleeps := 1);
    LoadingDrive(loading, b, w);
    if b.navigation.Done? {
      match b.buttonOnLoad
      case SearchRaised(m) =>
      case Absent =>
        UnsavedWaiting(FireView(w, WaitLoad), b);
      case Found =>
        var cookies := FireView(w, HandleCookies);
        CookiesDrive(cookies, b);
        if b.buttonOnHandle.Found? && b.click.Done? {
          UnsavedWaiting(FireView(cookies, WaitLoad), b);
        }
    }
  }

  // ---------------------------------------------------------------------
  // Snapshot sequencing.

  /** `save_page` called once per description, in order: the counter rises by one per call. */
  function SaveAll(v: ScraperView, descriptions: seq<string>, contents: seq<seq<Article>>): (r: ScraperView)
    requires |descriptions| == |contents|
    ensures r.pageCounter == v.pageCounter + |descriptions|
    ensures r == v.(files := r.files, pageCounter := r.pageCounter)
  {
    if descriptions == [] then v
    else
      var n := |descriptions| - 1;
      SaveView(SaveAll(v, descriptions[..n], contents[..n]), descriptions[n], contents[n])
  }

  /** The name save number `k` (from 0) gets, starting from `v`'s counter. */
  function SavedName(v: ScraperView, k: nat, description: string): string
  {
    PageName(v.pageCounter + k + 1, description)
  }

  /**
   * Save number `k` (from 0) is stored under the name for counter value
   * `page_counter + k + 1`, and no later save overwrites it.
   */
  lemma {:induction false} SaveAllNames(v: ScraperView, descriptions: seq<string>, contents: seq<seq<Article>>)
    requires |descriptions| == |contents|
    ensures var r := SaveAll(v, descriptions, contents);
      forall k :: 0 <= k < |descriptions| ==>
        SavedName(v, k, descriptions[k]) in r.files &&
        r.files[SavedName(v, k, descriptions[k])] == contents[k]
  {
    if descriptions != [] {
      var n := |descriptions| - 1;
      var ds, cs := descriptions[..n], contents[..n];
      SaveAllNames(v, ds, cs);
      var prev := SaveAll(v, ds, cs);
      var name := SavedName(v, n, descriptions[n]);
      var r := SaveAll(v, descriptions, contents);
      assert r == SaveView(prev, descriptions[n], contents[n]);
      assert name == PageName(prev.pageCounter + 1, descriptions[n]);
      assert r.files == prev.files[name := contents[n]];
      forall k | 0 <= k < |descriptions|
        ensures SavedName(v, k, descriptions[k]) in r.files
        ensures r.files[SavedName(v, k, descriptions[k])] == contents[k]
      {
        if k < n {
          assert ds[k] == descriptions[k] && cs[k] == contents[k];
          SavedNamesDiffer(v, k, descriptions[k], n, descriptions[n]);
          SaveKeeps(prev, descriptions[n], contents[n], SavedName(v, k, descriptions[k]));
        }
      }
    }
  }

  /** A save leaves every other file of the directory as it was. */
  lemma SaveKeeps(w: ScraperView, description: string, content: seq<Article>, name: string)
    requires name != PageName(w.pageCounter + 1, description)
    ensures var r := SaveView(w, description, content);
      (name in r.files <==> name in w.files) && (name in w.files ==> r.files[name] == w.files[name])
  {
  }

  /** Two saves with different counter values never share a file name. */
  lemma SavedNamesDiffer(v: ScraperView, i: nat, d: string, j: nat, e: string)
    requires i != j
    ensures SavedName(v, i, d) != SavedName(v, j, e)
  {
    if SavedName(v, i, d) == SavedName(v, j, e) {
      PageNameInjective(v.pageCounter + i + 1, d, v.pageCounter + j + 1, e);
    }
  }

  /** Three saves from a fresh scraper are named `01_…`, `02_…`, `03_…`, in that order. */
  lemma ThreeSaves(d1: string, d2: string, d3: string, c1: seq<Article>, c2: seq<Article>, c3: seq<Article>)
    ensures var r := SaveAll(Fresh(), [d1, d2, d3], [c1, c2, c3]);
      && r.pageCounter == 3
      && r.files == map["01_" + d1 + ".html" := c1, "02_" + d2 + ".html" := c2, "03_" + d3 + ".html" := c3]
  {
    assert PageName(1, d1) == "01_" + d1 + ".html" by {
      assert Pad2(1) == "01" by { assert DigitChar(1) == '1'; }
    }
    assert PageName(2, d2) == "02_" + d2 + ".html" by {
      assert Pad2(2) == "02" by { assert DigitChar(2) == '2'; }
    }
    assert PageName(3, d3) == "03_" + d3 + ".html" by {
      assert Pad2(3) == "03" by { assert DigitChar(3) == '3'; }
    }
    var s1 := SaveView(Fresh(), d1, c1);
    var s2 := SaveView(s1, d2, c2);
    assert SaveAll(Fresh(), [d1], [c1]) == s1 by {
      assert [d1][..0] == [] && [c1][..0] == [];
    }
    assert SaveAll(Fresh(), [d1, d2], [c1, c2]) == s2 by {
      assert [d1, d2][..1] == [d1] && [c1, c2][..1] == [c1];
    }
    assert SaveAll(Fresh(), [d1, d2, d3], [c1, c2, c3]) == SaveView(s2, d3, c3) by {
      assert [d1, d2, d3][..2] == [d1, d2] && [c1, c2, c3][..2] == [c1, c2];
    }
  }
}
