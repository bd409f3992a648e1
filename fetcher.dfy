/**
 * Issue collection (`fetch_issues` in index.py): one request per page
 * `1..pages`, each raw issue flattened into a `{title, body, url}` record,
 * all records kept in one ordered list, and the whole run abandoned with an
 * empty list as soon as one page request fails.
 *
 * The HTTP layer (a GET with a 10-second timeout, the status check and the
 * JSON decoding) is the parameter `respond`: it tells, for each request the
 * collector sends, whether that request failed (a request exception) or
 * which raw issues the page held. A reply that fails to decode is not
 * represented.
 */
module Fetcher {
  import opened Wrappers
  import opened Seqs
  import opened Strings

  /** How many characters of an issue body are kept. */
  const BODY_LIMIT: nat := 500

  /** A decoded JSON field that holds text or `null`. */
  datatype JsonText = Null | Text(s: string)

  /** One decoded issue object of the API's reply: field name to value; a key may be absent. */
  type RawIssue = map<string, JsonText>

  /** The flat record kept for each issue. */
  datatype IssueRecord = IssueRecord(title: JsonText, body: string, url: JsonText)

  /** What one page request came back with. */
  datatype PageResult = RequestFailed | Page(items: seq<RawIssue>)

  /** One GET request: the endpoint, the two query parameters and the headers. */
  datatype Request = Request(url: string, page: int, perPage: int, headers: map<string, string>)

  /** The arguments of one collection run. */
  datatype Query = Query(repo: string, pages: int, perPage: int, token: Option<string>)

  /** Python's `d.get(key, default)`: the stored value, even `null`, when the key is there. */
  function Get(raw: RawIssue, key: string, default: JsonText): JsonText
  {
    if key in raw then raw[key] else default
  }

  /** Python's truth value of the token argument: present and non-empty. */
  predicate Truthy(token: Option<string>)
  {
    token.Some? && token.value != ""
  }

  /** The request headers: an `Authorization` entry exactly when the token is truthy. */
  function Headers(token: Option<string>): (h: map<string, string>)
    ensures "Authorization" in h <==> Truthy(token)
    ensures Truthy(token) ==> h["Authorization"] == "token " + token.value
    ensures h.Keys <= {"Authorization"}
  {
    if Truthy(token) then map["Authorization" := "token " + token.value] else map[]
  }

  function IssuesUrl(repo: string): string
  {
    "https://api.github.com/repos/" + repo + "/issues"
  }

  /** The request the collector sends for page number `page`. */
  function PageRequest(q: Query, page: int): Request
  {
    Request(IssuesUrl(q.repo), page, q.perPage, Headers(q.token))
  }

  /** `(issue.get("body") or "")`: `null`, a missing key and the empty text all give `""`. */
  function BodyText(raw: RawIssue): (s: string)
    ensures "body" !in raw || raw["body"] == Null ==> s == ""
    ensures "body" in raw && raw["body"].Text? ==> s == raw["body"].s
  {
    match Get(raw, "body", Null)
    case Null => ""
    case Text(s) => s
  }

  /** The flat record for one raw issue. */
  function Normalize(raw: RawIssue): (r: IssueRecord)
    ensures "title" !in raw ==> r.title == Text("")
    ensures "title" in raw ==> r.title == raw["title"]
    ensures "html_url" !in raw ==> r.url == Text("")
    ensures "html_url" in raw ==> r.url == raw["html_url"]
    ensures ("body" !in raw || raw["body"] == Null) ==> r.body == ""
    ensures |r.body| <= BODY_LIMIT
    ensures r.body <= BodyText(raw)
    ensures |BodyText(raw)| <= BODY_LIMIT ==> r.body == BodyText(raw)
    ensures |BodyText(raw)| > BODY_LIMIT ==> |r.body| == BODY_LIMIT
  {
    IssueRecord(Get(raw, "title", Text("")), Take(BodyText(raw), BODY_LIMIT), Get(raw, "html_url", Text("")))
  }

  /** The records of one page, in the page's order. */
  function NormalizePage(items: seq<RawIssue>): (r: seq<IssueRecord>)
    ensures |r| == |items|
    ensures forall i :: 0 <= i < |items| ==> r[i] == Normalize(items[i])
  {
    seq(|items|, i requires 0 <= i < |items| => Normalize(items[i]))
  }

  /** Normalising is element by element, so it distributes over concatenation. */
  lemma NormalizePageAppend(a: seq<RawIssue>, b: seq<RawIssue>)
    ensures NormalizePage(a + b) == NormalizePage(a) + NormalizePage(b)
  {
    assert forall i :: 0 <= i < |a + b| ==> NormalizePage(a + b)[i] == (NormalizePage(a) + NormalizePage(b))[i];
  }

  /** Python's `range(1, pages + 1)` has this many elements. */
  function PageCount(pages: int): nat
  {
    if pages < 1 then 0 else pages
  }

  /** Where a run stands after some pages: still collecting, or abandoned after a failed request. */
  datatype Progress =
    | Collecting(issues: seq<IssueRecord>, requests: seq<Request>)
    | Aborted(requests: seq<Request>)

  /** The state of a run after it has dealt with pages `1..n` (and sent the requests it sent). */
  function Run(q: Query, respond: Request -> PageResult, n: nat): Progress
    decreases n
  {
    if n == 0 then Collecting([], [])
    else
      match Run(q, respond, n - 1)
      case Aborted(rs) => Aborted(rs)
      case Collecting(found, rs) =>
        var request := PageRequest(q, n);
        match respond(request)
        case RequestFailed => Aborted(rs + [request])
        case Page(items) => Collecting(found + NormalizePage(items), rs + [request])
  }

  /** What `fetch_issues` returns. */
  function Fetched(q: Query, respond: Request -> PageResult): seq<IssueRecord>
  {
    match Run(q, respond, PageCount(q.pages))
    case Aborted(_) => []
    case Collecting(found, _) => found
  }

  /**
   * `fetch_issues(repo, pages, per_page, token)`. Besides the list it returns,
   * `requests` is the sequence of requests it sent and `failed` says whether it
   * reported a failed request.
   */
  method FetchIssues(repo: string, pages: int, perPage: int, token: Option<string>,
                     respond: Request -> PageResult)
    returns (issues: seq<IssueRecord>, requests: seq<Request>, failed: bool)
    ensures Run(Query(repo, pages, perPage, token), respond, PageCount(pages))
         == if failed then Aborted(requests) else Collecting(issues, requests)
    ensures issues == Fetched(Query(repo, pages, perPage, token), respond)
    ensures failed ==> issues == []
  {
    ghost var q := Query(repo, pages, perPage, token);
    issues := [];
    requests := [];
    failed := false;
    var headers := Headers(token);
    var page := 1;
    while page <= pages
      invariant 1 <= page
      invariant page - 1 <= PageCount(pages)
      invariant Run(q, respond, page - 1) == Collecting(issues, requests)
    {
      var url := IssuesUrl(repo);
      var request := Request(url, page, perPage, headers);
      requests := requests + [request];
      var res := respond(request);
      if res.RequestFailed? {
        issues := [];
        failed := true;
        AbortedStays(q, respond, page, PageCount(pages));
        return;
      }
      var items := res.items;
      ghost var before := issues;
      for j := 0 to |items|
        invariant issues == before + NormalizePage(items[..j])
      {
        assert items[..j + 1] == items[..j] + [items[j]];
        NormalizePageAppend(items[..j], [items[j]]);
        issues := issues + [Normalize(items[j])];
      }
      assert items[..|items|] == items;
      page := page + 1;
    }
  }

  /** Once a run is abandoned it stays abandoned, and sends nothing more. */
  lemma {:induction false} AbortedStays(q: Query, respond: Request -> PageResult, m: nat, n: nat)
    requires m <= n
    requires Run(q, respond, m).Aborted?
    ensures Run(q, respond, n) == Run(q, respond, m)
    decreases n - m
  {
    if m < n {
      AbortedStays(q, respond, m + 1, n);
    }
  }

  /** The raw issue lists of pages `1..n`, in page order (a failed page contributes none). */
  function PageItems(q: Query, respond: Request -> PageResult, n: nat): (r: seq<seq<RawIssue>>)
    ensures |r| == n
    ensures forall p :: 1 <= p <= n ==> r[p - 1] == ItemsOf(respond(PageRequest(q, p)))
  {
    if n == 0 then [] else PageItems(q, respond, n - 1) + [ItemsOf(respond(PageRequest(q, n)))]
  }

  function ItemsOf(result: PageResult): seq<RawIssue>
  {
    match result
    case RequestFailed => []
    case Page(items) => items
  }

  /**
   * When every page request succeeds, the records are those of all pages'
   * issues in page order, each page keeping its own order, and there are as
   * many records as the pages held issues.
   */
  lemma {:induction false} RunAllSucceed(q: Query, respond: Request -> PageResult, n: nat)
    requires forall p :: 1 <= p <= n ==> respond(PageRequest(q, p)).Page?
    ensures Run(q, respond, n).Collecting?
    ensures Run(q, respond, n).issues == NormalizePage(Flatten(PageItems(q, respond, n)))
    ensures |Run(q, respond, n).issues| == SumLengths(PageItems(q, respond, n))
  {
    if n > 0 {
      RunAllSucceed(q, respond, n - 1);
      var items := respond(PageRequest(q, n)).items;
      FlattenSnoc(PageItems(q, respond, n - 1), items);
      NormalizePageAppend(Flatten(PageItems(q, respond, n - 1)), items);
      FlattenLength(PageItems(q, respond, n));
    }
  }

  lemma FetchedAllSucceed(q: Query, respond: Request -> PageResult)
    requires forall p :: 1 <= p <= q.pages ==> respond(PageRequest(q, p)).Page?
    ensures Fetched(q, respond) == NormalizePage(Flatten(PageItems(q, respond, PageCount(q.pages))))
    ensures |Fetched(q, respond)| == SumLengths(PageItems(q, respond, PageCount(q.pages)))
  {
    RunAllSucceed(q, respond, PageCount(q.pages));
  }

  /** One failed page request, wherever it falls, empties the result, even of pages that succeeded before it. */
  lemma {:induction false} RunAnyFailure(q: Query, respond: Request -> PageResult, p: nat, n: nat)
    requires 1 <= p <= n
    requires respond(PageRequest(q, p)).RequestFailed?
    ensures Run(q, respond, n).Aborted?
  {
    if Run(q, respond, p - 1).Collecting? {
      assert Run(q, respond, p).Aborted?;
    }
    AbortedStays(q, respond, if Run(q, respond, p - 1).Aborted? then p - 1 else p, n);
  }

  lemma FetchedAnyFailure(q: Query, respond: Request -> PageResult, p: nat)
    requires 1 <= p <= q.pages
    requires respond(PageRequest(q, p)).RequestFailed?
    ensures Fetched(q, respond) == []
  {
    RunAnyFailure(q, respond, p, PageCount(q.pages));
  }

  /**
   * The requests sent are those for pages 1, 2, ... in increasing order, each
   * with the same endpoint, page size and headers. A run that goes on has sent
   * one request per page, all answered; an abandoned run stopped right after
   * its first failed request.
   */
  lemma {:induction false} RunRequests(q: Query, respond: Request -> PageResult, n: nat)
    ensures var rs := Run(q, respond, n).requests;
      |rs| <= n &&
      (forall i :: 0 <= i < |rs| ==> rs[i] == PageRequest(q, i + 1)) &&
      (Run(q, respond, n).Collecting? ==>
         |rs| == n && forall i :: 0 <= i < |rs| ==> respond(rs[i]).Page?) &&
      (Run(q, respond, n).Aborted? ==>
         |rs| >= 1 && respond(rs[|rs| - 1]).RequestFailed? &&
         forall i :: 0 <= i < |rs| - 1 ==> respond(rs[i]).Page?)
  {
    if n > 0 {
      RunRequests(q, respond, n - 1);
    }
  }

  /** `fetch_issues` reports a failure exactly when some page in `1..pages` fails. */
  lemma RunAbortedIff(q: Query, respond: Request -> PageResult, n: nat)
    ensures Run(q, respond, n).Aborted? <==>
      exists p :: 1 <= p <= n && respond(PageRequest(q, p)).RequestFailed?
  {
    if Run(q, respond, n).Aborted? {
      RunRequests(q, respond, n);
      var rs := Run(q, respond, n).requests;
      assert rs[|rs| - 1] == PageRequest(q, |rs|);
    }
    if exists p :: 1 <= p <= n && respond(PageRequest(q, p)).RequestFailed? {
      var p :| 1 <= p <= n && respond(PageRequest(q, p)).RequestFailed?;
      RunAnyFailure(q, respond, p, n);
    }
  }

  /**
   * Whatever the pages return, every record `fetch_issues` returns has a body
   * of at most 500 characters, and that body is a prefix of the source body
   * of the raw issue at the same position among all pages' issues.
   */
  lemma FetchedBodies(q: Query, respond: Request -> PageResult)
    ensures forall r :: r in Fetched(q, respond) ==> |r.body| <= BODY_LIMIT
    ensures var raws := Flatten(PageItems(q, respond, PageCount(q.pages)));
      forall i :: 0 <= i < |Fetched(q, respond)| ==>
        i < |raws| && Fetched(q, respond)[i].body <= BodyText(raws[i])
  {
    var n := PageCount(q.pages);
    RunAbortedIff(q, respond, n);
    if Run(q, respond, n).Collecting? {
      assert forall p :: 1 <= p <= n ==> respond(PageRequest(q, p)).Page?;
      RunAllSucceed(q, respond, n);
      var raws := Flatten(PageItems(q, respond, n));
      assert Fetched(q, respond) == NormalizePage(raws);
      forall i | 0 <= i < |raws|
        ensures Fetched(q, respond)[i].body <= BodyText(raws[i])
        ensures |Fetched(q, respond)[i].body| <= BODY_LIMIT
      {
        assert Fetched(q, respond)[i] == Normalize(raws[i]);
      }
      forall r | r in Fetched(q, respond) ensures |r.body| <= BODY_LIMIT {
        var i :| 0 <= i < |Fetched(q, respond)| && Fetched(q, respond)[i] == r;
      }
    } else {
      assert Fetched(q, respond) == [];
    }
  }
}
