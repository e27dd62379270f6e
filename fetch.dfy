/** `get_response` and `check_response`, identical in both scripts. The
    network is a parameter: the response the server gives for a URL. */
module Fetch {
  import opened Py
  import opened PyText

  const Website: string := "https://opensnow.com"
  const StatePath: string := "/state/"

  /** What the server sends back: the status code, the Content-Type header if
      there is one, and the body. */
  datatype Response<Body> = Response(status: int, contentType: Option<string>, content: Body)

  /** `WEBSITE + '/state/' + state`, with no escaping. */
  function Url(state: string): string {
    Website + StatePath + state
  }

  /** The state a request URL was built from, if it was built by Url. */
  function StateOfUrl(url: string): (r: Option<string>)
    ensures r.Some? ==> Url(r.value) == url
  {
    var prefix := Website + StatePath;
    if |prefix| <= |url| && url[..|prefix|] == prefix then Some(url[|prefix|..]) else None
  }

  /** Url keeps the state verbatim: it can be read back from the URL. */
  lemma UrlRoundTrip(state: string)
    ensures StateOfUrl(Url(state)) == Some(state)
  {
    var prefix := Website + StatePath;
    assert Url(state)[..|prefix|] == prefix;
    assert Url(state)[|prefix|..] == state;
  }

  /** "html" in any mix of upper and lower case starts at index j of ct. */
  predicate HtmlAt(ct: string, j: int) {
    0 <= j && j + 4 <= |ct|
    && ct[j] in "hH" && ct[j + 1] in "tT" && ct[j + 2] in "mM" && ct[j + 3] in "lL"
  }

  /** The Content-Type mentions "html", whatever the case of its letters. */
  predicate MentionsHtml(ct: string) {
    exists j | 0 <= j < |ct| :: HtmlAt(ct, j)
  }

  lemma LowerHtmlAt(ct: string, j: int)
    ensures OccursAt(Lower(ct), "html", j) <==> HtmlAt(ct, j)
  {
    if 0 <= j && j + 4 <= |ct| {
      var low := Lower(ct);
      assert low[j..j + 4] == [low[j], low[j + 1], low[j + 2], low[j + 3]];
    }
  }

  lemma LowerFindsHtml(ct: string)
    ensures Find(Lower(ct), "html") > -1 <==> MentionsHtml(ct)
  {
    var r := Find(Lower(ct), "html");
    if MentionsHtml(ct) {
      var j :| HtmlAt(ct, j);
      LowerHtmlAt(ct, j);
    }
    if r >= 0 {
      LowerHtmlAt(ct, r);
    }
  }

  /** `check_response`: the header lookup raises KeyError when there is no
      Content-Type; otherwise the response is accepted exactly when the
      status is 200 and the header mentions "html" in any case. */
  function CheckResponse(status: int, contentType: Option<string>): (r: Outcome<bool>)
    ensures r.Raised? <==> contentType.None?
    ensures r.Raised? ==> r.error == KeyError
    ensures r.Ok? ==> (r.value <==> status == 200 && MentionsHtml(contentType.value))
  {
    match contentType
    case None => Raised(KeyError)
    case Some(ct) =>
      LowerFindsHtml(ct);
      Ok(status == 200 && Find(Lower(ct), "html") > -1)
  }

  /** `get_response(state)` apart from its printing of the URL: it asks the
      network for exactly Url(state) and returns the body when the response
      is accepted, None when it is not, and lets KeyError through. */
  function GetResponse<Body>(state: string, network: string -> Response<Body>): (r: Outcome<Option<Body>>)
    ensures var resp := network(Url(state));
      && (r.Raised? <==> resp.contentType.None?)
      && (r.Raised? ==> r.error == KeyError)
      && (r.Ok? ==> (r.value.Some? <==> resp.status == 200 && MentionsHtml(resp.contentType.value)))
      && (r.Ok? && r.value.Some? ==> r.value.value == resp.content)
  {
    var resp := network(Url(state));
    match CheckResponse(resp.status, resp.contentType)
    case Raised(e) => Raised(e)
    case Ok(accepted) => Ok(if accepted then Some(resp.content) else None)
  }
}
