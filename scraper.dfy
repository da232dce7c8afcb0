/**
 * The `WebScraper` object: its fields change in place as the run goes from
 * handler to handler. Each method is proved to leave the object in the
 * state the matching function of module Pipeline describes, so every
 * property proved there about a run holds of the object.
 *
 * The browser is the `Browser` value passed in; the session directory is
 * the `files` map. The states entered, the probes made and the sleeps
 * taken are ghost fields kept for the proofs.
 */
module Scraper {
  import opened Wrappers
  import opened Stages
  import opened Snapshots
  import opened Publications
  import opened Extraction
  import opened Probing
  import opened Pipeline

  class WebScraper {
    var state: State
    var publications: seq<Publication>
    var currentUrl: Option<string>
    var errorMessage: Option<string>
    var pageCounter: nat
    /** The `*.html` files of the session directory, by name. */
    var files: map<string, seq<Article>>
    ghost var visited: seq<State>
    ghost var probes: nat
    ghost var sleeps: nat

    /** The fields, as the value the Pipeline functions work on. */
    ghost function View(): ScraperView
      reads this
    {
      ScraperView(state, publications, currentUrl, errorMessage, pageCounter, files, visited, probes, sleeps)
    }

    /** `__init__`: no listings, no url, no message, the `*.html` files purged, the counter at 0, state `init`. */
    constructor()
      ensures View() == Fresh()
    {
      state := Init;
      publications := [];
      currentUrl := None;
      errorMessage := None;
      pageCounter := 0;
      files := map[];
      visited := [Init];
      probes := 0;
      sleeps := 0;
    }

    /**
     * A trigger method of the state machine. An accepted trigger moves to
     * its destination; one not accepted in the current state raises
     * `MachineError`, reported here as `accepted == false`, and changes nothing.
     */
    method Fire(t: Trigger) returns (accepted: bool)
      modifies this
      ensures accepted <==> Step(old(state), t).Some?
      ensures accepted ==> View() == FireView(old(View()), t)
      ensures !accepted ==> View() == old(View())
    {
      var next := Step(state, t);
      accepted := next.Some?;
      if accepted {
        state := next.value;
        visited := visited + [state];
      }
    }

    /** The `except` clause of a handler: record the message, then fire `error`. */
    method FailWith(message: string)
      modifies this
      ensures View() == FailView(old(View()), message)
    {
      errorMessage := Some(message);
      FailAlwaysAccepted(state);
      var accepted := Fire(Trigger.Fail);
    }

    /** `save_page(description)`: raise the counter and write `content` under the numbered name. */
    method SavePage(description: string, content: seq<Article>)
      modifies this
      ensures View() == SaveView(old(View()), description, content)
    {
      pageCounter := pageCounter + 1;
      var pageName := PageName(pageCounter, description);
      files := files[pageName := content];
    }

    /** `on_extracting_details`: fire `finish`. */
    method OnExtractingDetails()
      requires state == ExtractingDetails
      modifies this
      ensures View() == DetailsStep(old(View()))
    {
      var accepted := Fire(Finish);
    }

    /**
     * `on_extracting_publications`: open snapshot 01, append its listings,
     * then fire `get_details`; a missing snapshot fails the run.
     */
    method OnExtractingPublications()
      requires state == ExtractingPublications
      modifies this
      ensures View() == AfterPublications(old(View()))
    {
      if SNAPSHOT_READ !in files {
        FailWith(SNAPSHOT_MISSING);
        return;
      }
      AppendListings(files[SNAPSHOT_READ]);
      var accepted := Fire(GetDetails);
      OnExtractingDetails();
    }

    /**
     * The loop of `on_extracting_publications`: for each article, in
     * document order, append its listing when `ExtractOne` yields one (it
     * skips an article with no link, no `href` or no title, or whose
     * `from_url` raises).
     */
    method AppendListings(articles: seq<Article>)
      modifies this
      ensures View() == old(View()).(publications := old(publications) + ExtractAll(articles))
    {
      for i := 0 to |articles|
        invariant publications == old(publications) + ExtractAll(articles[..i])
        invariant View() == old(View()).(publications := publications)
      {
        ExtractAllPrefix(old(publications), articles, i);
        ghost var before := publications;
        var listing := ExtractOne(articles[i]);
        if listing.Some? {
          publications := publications + [listing.value];
        }
        assert publications == before + Emit(articles[i]);
      }
      assert articles[..|articles|] == articles;
    }

    /**
     * The retry loop of `on_waiting_page_load`: probe for articles up to
     * `MAX_RETRIES` times, sleeping after each probe that finds none, and
     * report the first attempt that found some.
     */
    method ProbeForArticles(b: Browser) returns (found: Option<nat>)
      modifies this
      ensures found == FirstFound(b.probes, 0, MAX_RETRIES)
      ensures found.Some? ==>
        View() == old(View()).(probes := old(probes) + found.value + 1, sleeps := old(sleeps) + found.value)
      ensures found.None? ==>
        View() == old(View()).(probes := old(probes) + MAX_RETRIES, sleeps := old(sleeps) + MAX_RETRIES)
    {
      var retryCount: nat := 0;
      var elements: nat := 0;
      while retryCount < MAX_RETRIES
        invariant retryCount <= MAX_RETRIES
        invariant elements == 0
        invariant forall j :: 0 <= j < retryCount ==> ProbeAt(b.probes, j) == 0
        invariant View() == old(View()).(probes := old(probes) + retryCount, sleeps := old(sleeps) + retryCount)
      {
        elements := ProbeAt(b.probes, retryCount);
        probes := probes + 1;
        if elements > 0 {
          break;
        }
        sleeps := sleeps + 1;
        retryCount := retryCount + 1;
      }
      if elements == 0 {
        FirstFoundNone(b.probes, 0, MAX_RETRIES);
        found := None;
      } else {
        FirstFoundAt(b.probes, 0, MAX_RETRIES, retryCount);
        found := Some(retryCount);
      }
    }

    /**
     * `on_waiting_page_load`: wait for the articles; then save the page as
     * `current_page` and extract, or fail with the timeout message.
     */
    method OnWaitingPageLoad(b: Browser)
      requires state == WaitingPageLoad
      modifies this
      ensures View() == Drive(old(View()), b)
    {
      ghost var v0 := View();
      var found := ProbeForArticles(b);
      if found.None? {
        WaitingTimeoutDrive(v0, b);
        FailWith(WAITING_PREFIX + TIMEOUT);
      } else {
        WaitingFoundDrive(v0, b, found.value, View());
        SavePage(CURRENT_PAGE, b.content);
        var accepted := Fire(Extract);
        OnExtractingPublications();
      }
    }

    /** `on_handling_cookies`: look the consent button up again, click it, go on to the waiting stage. */
    method OnHandlingCookies(b: Browser)
      requires state == HandlingCookies
      modifies this
      ensures View() == Drive(old(View()), b)
    {
      CookiesDrive(View(), b);
      match b.buttonOnHandle
      case SearchRaised(m) =>
        FailWith(COOKIES_PREFIX + m);
      case Absent =>
        FailWith(COOKIES_PREFIX + BUTTON_NOT_FOUND);
      case Found =>
        match b.click
        case ActionRaised(m) =>
          FailWith(COOKIES_PREFIX + m);
        case Done =>
          var accepted := Fire(WaitLoad);
          OnWaitingPageLoad(b);
    }

    /** `on_loading_page`: navigate, sleep, then take the consent or the waiting stage. */
    method OnLoadingPage(b: Browser)
      requires state == LoadingPage
      modifies this
      ensures View() == Drive(old(View()), b)
    {
      ghost var v0 := View();
      match b.navigation
      case ActionRaised(m) =>
        LoadingDrive(v0, b, v0.(sleeps := v0.sleeps + 1));
        FailWith(m);
      case Done =>
        sleeps := sleeps + 1;
        LoadingDrive(v0, b, View());
        match b.buttonOnLoad
        case SearchRaised(m) =>
          FailWith(m);
        case Found =>
          var accepted := Fire(HandleCookies);
          OnHandlingCookies(b);
        case Absent =>
          var accepted := Fire(WaitLoad);
          OnWaitingPageLoad(b);
    }

    /**
     * `run(start_url)`: record the url, fire `load` and enter the loading
     * stage; `raised` reports the `MachineError` that `load` raises outside `init`.
     */
    method Run(startUrl: string, b: Browser) returns (raised: bool)
      modifies this
      ensures raised <==> RunRaises(old(View()))
      ensures View() == RunSpec(old(View()), startUrl, b)
    {
      currentUrl := Some(startUrl);
      var accepted := Fire(Load);
      raised := !accepted;
      if accepted {
        OnLoadingPage(b);
      }
    }
  }
}
