/** The listing record and its construction from a link (`Publication.from_url`). */
module Publications {
  import opened Wrappers
  import opened Strings

  /** The site every relative link is resolved against. */
  const BASE_URL: string := "https://www.idealista.com"

  /** One listing; `id` is `None` only for an empty url. */
  datatype Publication = Publication(id: Option<string>, title: string, url: string)

  /** `from_url` either builds a record or raises `IndexError` from `split('/')[-2]`. */
  datatype Built = Ok(value: Publication) | IndexError

  /** A url that starts with `/` is made absolute by prefixing the base. */
  function Absolute(url: string, baseUrl: string): (r: string)
    ensures !(url != [] && url[0] == '/') ==> r == url
    ensures baseUrl != [] && baseUrl[0] != '/' ==> r == [] || r[0] != '/'
  {
    if url != [] && url[0] == '/' then baseUrl + url else url
  }

  /** Under a base that does not start with `/`, making a url absolute twice changes nothing. */
  lemma AbsoluteIdempotent(url: string, baseUrl: string)
    requires baseUrl != [] && baseUrl[0] != '/'
    ensures Absolute(Absolute(url, baseUrl), baseUrl) == Absolute(url, baseUrl)
  {
  }

  /** `split('/')` has an element -2 exactly when the url holds a `/`. */
  lemma SplitHasSecondToLast(url: string)
    ensures |Split(url, '/')| >= 2 <==> '/' in url
  {
  }

  /**
   * `Publication.from_url(title, url, base_url)`: the id is element -2 of
   * `url.split('/')`, taken from the url as given (before it is made
   * absolute); an empty url gives no id.
   */
  function FromUrl(title: string, url: string, baseUrl: string): (r: Built)
    ensures r.IndexError? <==> url != [] && '/' !in url
    ensures r.Ok? ==> r.value.title == title
    ensures r.Ok? ==> (r.value.id.None? <==> url == [])
    ensures r.Ok? && r.value.id.Some? ==> '/' !in r.value.id.value
    ensures r.Ok? && url != [] && url[0] == '/' ==> r.value.url == baseUrl + url
    ensures r.Ok? && !(url != [] && url[0] == '/') ==> r.value.url == url
  {
    if url == [] then
      Ok(Publication(None, title, Absolute(url, baseUrl)))
    else
      var parts := Split(url, '/');
      SplitHasSecondToLast(url);
      if |parts| < 2 then
        IndexError
      else
        SplitPiecesHaveNoSeparator(url, '/');
        Ok(Publication(Some(SecondToLast(parts)), title, Absolute(url, baseUrl)))
  }

  /**
   * A relative link and its absolute form give the same record whenever the
   * link holds at least two `/`: the id never reaches into the base.
   */
  lemma RelativeAndAbsoluteAgree(title: string, u: string)
    requires u != [] && u[0] == '/'
    requires Count(u, '/') >= 2
    ensures FromUrl(title, u, BASE_URL) == FromUrl(title, BASE_URL + u, BASE_URL)
  {
    SecondToLastAfterPrefix(BASE_URL, u, '/');
    assert (BASE_URL + u)[0] == 'h';
    assert (BASE_URL + u)[|BASE_URL|] == '/';
  }

  /**
   * The id is the piece between the last two `/` of the url, whatever comes
   * before them: `p/n/q` with no `/` in `n` or `q` has id `n`.
   */
  lemma IdBetweenLastSlashes(title: string, p: string, n: string, q: string, baseUrl: string)
    requires '/' !in n && '/' !in q
    ensures var url := p + "/" + n + "/" + q;
      FromUrl(title, url, baseUrl) == Ok(Publication(Some(n), title, Absolute(url, baseUrl)))
  {
    SplitAppendPiece(p, '/', n);
    SplitAppendPiece(p + "/" + n, '/', q);
  }

  /**
   * A url with a single `/`, `n/q`, has id `n`: the piece before the slash
   * (together with `IdBetweenLastSlashes` this covers every url holding a `/`).
   */
  lemma OneSlash(title: string, n: string, q: string, baseUrl: string)
    requires '/' !in n && '/' !in q
    ensures var url := n + "/" + q;
      FromUrl(title, url, baseUrl) == Ok(Publication(Some(n), title, Absolute(url, baseUrl)))
  {
    SplitAppendPiece(n, '/', q);
    assert n + "/" + q == n + ['/'] + q;
  }

  /**
   * A listing link `/<kind>/<number>/` has id `<number>`, and so has its
   * absolute form under any base that does not start with `/`.
   */
  lemma ListingLinkId(title: string, kind: string, number: string, base: string)
    requires '/' !in kind && '/' !in number
    requires base != [] && base[0] != '/'
    ensures var u := "/" + kind + "/" + number + "/";
      && FromUrl(title, u, base) == Ok(Publication(Some(number), title, base + u))
      && FromUrl(title, base + u, base) == Ok(Publication(Some(number), title, base + u))
  {
    var u := "/" + kind + "/" + number + "/";
    IdBetweenLastSlashes(title, "/" + kind, number, "", base);
    assert "/" + kind + "/" + number + "/" + "" == u;
    IdBetweenLastSlashes(title, base + "/" + kind, number, "", base);
    assert base + "/" + kind + "/" + number + "/" + "" == base + u;
    assert (base + u)[0] == base[0];
  }

  /** The base is a scheme, `//`, and a host name without `/`. */
  lemma BaseUrlParts()
    ensures BASE_URL == "https:" + "//" + "www.idealista.com"
    ensures '/' !in "www.idealista.com"
  {
  }

  /**
   * A relative link with a single `/` has the empty id, while its absolute
   * form under `<scheme>//<host>` yields the host name: the two disagree.
   */
  lemma SingleSlashIdsDisagree(title: string, w: string, scheme: string, host: string)
    requires '/' !in w && '/' !in host
    ensures var base := scheme + "//" + host;
      && FromUrl(title, "/" + w, base).value.id == Some("")
      && FromUrl(title, base + "/" + w, base).value.id == Some(host)
  {
    SplitAppendPiece("", '/', w);
    assert "" + ['/'] + w == "/" + w;
    assert scheme + "//" + host + "/" + w == (scheme + "/") + "/" + host + "/" + w;
    IdBetweenLastSlashes(title, scheme + "/", host, w, scheme + "//" + host);
  }

  /**
   * For the default base: `/w` gets the empty id, while the same link written
   * out as `https://www.idealista.com/w` gets the host name as its id.
   */
  lemma IdealistaSingleSlash(title: string, w: string)
    requires '/' !in w
    ensures FromUrl(title, "/" + w, BASE_URL).value.id == Some("")
    ensures FromUrl(title, BASE_URL + "/" + w, BASE_URL).value.id == Some("www.idealista.com")
  {
    BaseUrlParts();
    SingleSlashIdsDisagree(title, w, "https:", "www.idealista.com");
  }
}
