/**
 * The per-article filter of `on_extracting_publications`: which parsed
 * `article.item` records become listings, and in what order.
 */
module Extraction {
  import opened Wrappers
  import opened Strings
  import opened Publications

  /** The first `a.item-link` of an article: its `href` and `title` attributes and its stripped text. */
  datatype Link = Link(href: Option<string>, title: Option<string>, text: string)

  /** An `article.item` element; `link` is `None` when it holds no `a.item-link`. */
  datatype Article = Article(link: Option<Link>)

  /** The title attribute when it is truthy, otherwise the link text. */
  function LinkTitle(l: Link): (title: string)
    ensures title != [] <==> (l.title.Some? && l.title.value != []) || l.text != []
  {
    if l.title.Some? && l.title.value != [] then l.title.value else l.text
  }

  /**
   * An article yields a listing when it has a link with a non-empty `href`
   * holding a `/`, and a non-empty title or text.
   */
  predicate Usable(a: Article)
    ensures Usable(a) ==> a.link.Some? && LinkTitle(a.link.value) != []
  {
    && a.link.Some?
    && a.link.value.href.Some?
    && a.link.value.href.value != []
    && '/' in a.link.value.href.value
    && (if a.link.value.title.Some? && a.link.value.title.value != [] then true else a.link.value.text != [])
  }

  /**
   * One iteration of the loop: skip on a missing link, a missing or empty
   * href or title, or an `IndexError` from `from_url`; otherwise build the listing.
   */
  function ExtractOne(a: Article): (r: Option<Publication>)
    ensures r.Some? <==> Usable(a)
    ensures r.Some? ==> r.value == FromUrl(LinkTitle(a.link.value), a.link.value.href.value, BASE_URL).value
  {
    match a.link
    case None => None
    case Some(l) =>
      var title := LinkTitle(l);
      if l.href.None? || l.href.value == [] || title == [] then None
      else
        match FromUrl(title, l.href.value, BASE_URL)
        case IndexError => None
        case Ok(p) => Some(p)
  }

  /** What one article contributes: its listing, or nothing. */
  function Emit(a: Article): seq<Publication>
  {
    match ExtractOne(a)
    case None => []
    case Some(p) => [p]
  }

  /** The listings the loop appends, in document order. */
  function ExtractAll(articles: seq<Article>): (listings: seq<Publication>)
    ensures forall k :: 0 <= k < |listings| ==> listings[k].id.Some? && listings[k].title != []
  {
    if articles == [] then []
    else ExtractAll(articles[..|articles| - 1]) + Emit(articles[|articles| - 1])
  }

  /** Indices, in increasing order, of the articles that yield a listing. */
  function UsableIndices(articles: seq<Article>): seq<nat>
  {
    if articles == [] then []
    else
      var init := UsableIndices(articles[..|articles| - 1]);
      if Usable(articles[|articles| - 1]) then init + [|articles| - 1] else init
  }

  /** The usable indices are in range, increasing, and name exactly the usable articles. */
  lemma {:induction false} UsableIndicesExact(articles: seq<Article>)
    ensures var idx := UsableIndices(articles);
      && (forall k :: 0 <= k < |idx| ==> idx[k] < |articles| && Usable(articles[idx[k]]))
      && (forall k, m :: 0 <= k < m < |idx| ==> idx[k] < idx[m])
      && (forall i :: 0 <= i < |articles| && Usable(articles[i]) ==> i in idx)
  {
    if articles != [] {
      var n := |articles|;
      var init := articles[..n - 1];
      UsableIndicesExact(init);
      assert forall i :: 0 <= i < n - 1 ==> articles[i] == init[i];
    }
  }

  /**
   * The extracted listings are exactly the listings of the usable articles,
   * taken in increasing index order: a filter that keeps document order.
   */
  lemma {:induction false} ExtractAllIsFilter(articles: seq<Article>)
    ensures |ExtractAll(articles)| == |UsableIndices(articles)|
    ensures forall k :: 0 <= k < |UsableIndices(articles)| ==>
      UsableIndices(articles)[k] < |articles| &&
      ExtractOne(articles[UsableIndices(articles)[k]]) == Some(ExtractAll(articles)[k])
  {
    if articles != [] {
      var n := |articles|;
      var init := articles[..n - 1];
      var last := articles[n - 1];
      ExtractAllIsFilter(init);
      UsableIndicesExact(init);
      assert ExtractAll(articles) == ExtractAll(init) + Emit(last);
      var before, all := UsableIndices(init), UsableIndices(articles);
      assert all == before + (if Usable(last) then [n - 1] else []);
      forall k | 0 <= k < |all|
        ensures all[k] < n && ExtractOne(articles[all[k]]) == Some(ExtractAll(articles)[k])
      {
        if k < |before| {
          assert all[k] == before[k] && articles[before[k]] == init[before[k]];
          assert ExtractAll(articles)[k] == ExtractAll(init)[k];
        }
      }
    }
  }

  /** One more article contributes its own listing, if any, after the others. */
  lemma ExtractAllSnoc(articles: seq<Article>, a: Article)
    ensures ExtractAll(articles + [a]) == ExtractAll(articles) + Emit(a)
  {
    assert (articles + [a])[..|articles|] == articles;
  }

  /** Extracting one more article of a list, after listings `earlier`. */
  lemma ExtractAllPrefix(earlier: seq<Publication>, articles: seq<Article>, i: nat)
    requires i < |articles|
    ensures earlier + ExtractAll(articles[..i + 1]) == (earlier + ExtractAll(articles[..i])) + Emit(articles[i])
  {
    assert articles[..i + 1] == articles[..i] + [articles[i]];
    ExtractAllSnoc(articles[..i], articles[i]);
  }

  /** Extraction distributes over concatenation of article lists. */
  lemma {:induction false} ExtractAllAppend(xs: seq<Article>, ys: seq<Article>)
    ensures ExtractAll(xs + ys) == ExtractAll(xs) + ExtractAll(ys)
    decreases |ys|
  {
    if ys == [] {
      assert xs + ys == xs;
    } else {
      var init, last := ys[..|ys| - 1], ys[|ys| - 1];
      assert ys == init + [last];
      calc {
        ExtractAll(xs + ys);
        { assert xs + ys == (xs + init) + [last]; }
        ExtractAll((xs + init) + [last]);
        { ExtractAllSnoc(xs + init, last); }
        ExtractAll(xs + init) + Emit(last);
        { ExtractAllAppend(xs, init); }
        ExtractAll(xs) + ExtractAll(init) + Emit(last);
        { ExtractAllSnoc(init, last); }
        ExtractAll(xs) + ExtractAll(ys);
      }
    }
  }

  /** When every article is usable, one listing comes out per article. */
  lemma AllUsableAllExtracted(articles: seq<Article>)
    requires forall i :: 0 <= i < |articles| ==> Usable(articles[i])
    ensures |ExtractAll(articles)| == |articles|
  {
    ExtractAllIsFilter(articles);
    UsableIndicesAreAll(articles);
  }

  /** With every article usable, every index is a usable one. */
  lemma {:induction false} UsableIndicesAreAll(articles: seq<Article>)
    requires forall i :: 0 <= i < |articles| ==> Usable(articles[i])
    ensures |UsableIndices(articles)| == |articles|
  {
    if articles != [] {
      UsableIndicesAreAll(articles[..|articles| - 1]);
    }
  }
}
