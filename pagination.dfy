/**
 * The cursor-following protocol of the Confluence Cloud REST API v2, as both
 * the client class and the stand-alone script drive it: read a page, append
 * its `results`, and follow `_links.next` (resolved against `_links.base`,
 * or a fallback base) until a page carries no `next`.
 *
 * The server is a finite script of responses: the k-th request receives the
 * k-th response, and a request beyond the end of the script fails as a
 * transport error would.
 */
module Pagination {
  import opened Wrappers
  import opened JsonValue
  import opened Url

  /** Query parameters, in the order of the dict literal that builds them. */
  type Params = seq<(string, Json)>

  /** One GET: the URL and the `params=` argument. */
  datatype Request = Request(url: string, params: Option<Params>)

  /**
   * What a GET produces: no response at all (connection error, timeout,
   * malformed URL), or a status code with a body that does or does not
   * decode as JSON.
   */
  datatype Response =
    | NoResponse
    | Reply(status: int, body: Option<Json>)

  /** Why a whole pagination run fails. Every one of them aborts the run. */
  datatype FetchError =
    | Transport                 // the request raised before a response arrived
    | HttpStatus(status: int)   // `raise_for_status` on a 4xx or 5xx status
    | Undecodable               // `resp.json()` on a body that is not JSON
    | Python(error: PyError)    // the decoded page does not have the expected shape

  /** The part of one page the loop uses: its items and, if it has one, the next URL. */
  datatype Step = Step(items: seq<Json>, next: Option<string>)

  /** The two forms of the loop: `while url:` and `while True:`. */
  datatype LoopGuard = WhileUrl | WhileTrue

  /** The requests a run sends and what it returns or raises. */
  datatype Outcome = Outcome(sent: seq<Request>, result: Result<seq<Json>, FetchError>)

  /** `raise_for_status` raises for client errors (4xx) and server errors (5xx) only. */
  predicate RaisesForStatus(status: int) {
    400 <= status < 600
  }

  function Lift<T>(r: Result<T, PyError>): (l: Result<T, FetchError>)
    ensures l.Success? <==> r.Success?
    ensures r.Success? ==> l.value == r.value
    ensures r.Failure? ==> l.error == Python(r.error)
  {
    match r
    case Success(v) => Success(v)
    case Failure(e) => Failure(Python(e))
  }

  /**
   * `urljoin(base_from_api, next_path)` for a truthy `next_path`, followed by
   * the `str()` conversion the HTTP library applies to a URL that is not a
   * string. A falsy base makes `urljoin` return `next_path` untouched; a
   * string mixed with a non-string is a TypeError; two non-strings fail when
   * `urljoin` tries to decode them as bytes.
   */
  function JoinNext(base: Json, next: Json): (r: Result<string, PyError>)
    requires Truthy(next)
    ensures !Truthy(base) ==> r == Success(Show(next))
    ensures Truthy(base) && base.JStr? && next.JStr? ==> r == Success(UrlJoin(base.s, next.s))
    ensures r.Failure? <==> Truthy(base) && !(base.JStr? && next.JStr?)
    ensures r.Failure? ==> r.error == (if base.JStr? || next.JStr? then TypeError else AttributeError)
  {
    if !Truthy(base) then Success(Show(next))
    else if base.JStr? && next.JStr? then Success(UrlJoin(base.s, next.s))
    else if base.JStr? || next.JStr? then Failure(TypeError)
    else Failure(AttributeError)
  }

  /**
   * The body of one loop iteration on one response: `raise_for_status`,
   * `resp.json()`, `data.get("results", [])` handed to `list.extend`,
   * `data.get("_links", {})`, `links.get("next")`, and for a truthy `next`
   * the resolution against `links.get("base", fallback)`.
   */
  function ReadPage(resp: Response, fallback: string): (r: Result<Step, FetchError>)
    ensures resp.NoResponse? ==> r == Failure(Transport)
    ensures resp.Reply? && RaisesForStatus(resp.status) ==> r == Failure(HttpStatus(resp.status))
    ensures resp.Reply? && !RaisesForStatus(resp.status) && resp.body.None? ==> r == Failure(Undecodable)
    ensures r.Success? ==> resp.Reply? && !RaisesForStatus(resp.status) && resp.body.Some?
  {
    match resp
    case NoResponse => Failure(Transport)
    case Reply(status, body) =>
      if RaisesForStatus(status) then Failure(HttpStatus(status))
      else if body.None? then Failure(Undecodable)
      else
        var data := body.value;
        var results :- Lift(Get(data, "results", JArr([])));
        var items :- Lift(Iterate(results));
        var links :- Lift(Get(data, "_links", JObj([])));
        var next :- Lift(Get(links, "next", JNull));
        if !Truthy(next) then Success(Step(items, None))
        else
          var base :- Lift(Get(links, "base", JStr(fallback)));
          var url :- Lift(JoinNext(base, next));
          Success(Step(items, Some(url)))
  }

  /**
   * What a page that reads without error holds: a dict body whose
   * "results" (default []) iterate to the items, whose "_links" (default {})
   * is a dict, and whose continuation is absent exactly when `next` is
   * falsy and otherwise is `next` resolved against `base` (default the
   * client's base URL).
   */
  lemma ReadPageSuccess(resp: Response, fallback: string)
    requires ReadPage(resp, fallback).Success?
    ensures resp.Reply? && resp.body.Some? && resp.body.value.JObj?
    ensures var data := resp.body.value.members;
      var step := ReadPage(resp, fallback).value;
      Iterate(GetOr(data, "results", JArr([]))) == Success(step.items) &&
      GetOr(data, "_links", JObj([])).JObj? &&
      var links := GetOr(data, "_links", JObj([])).members;
      var next := GetOr(links, "next", JNull);
      (step.next.None? <==> !Truthy(next)) &&
      (step.next.Some? ==>
        Truthy(next) && JoinNext(GetOr(links, "base", JStr(fallback)), next) == Success(step.next.value))
  {
  }

  /** The run `o` with `sent` requested and `items` collected before it. */
  function Prepend(sent: seq<Request>, items: seq<Json>, o: Outcome): (p: Outcome)
    ensures p.sent == sent + o.sent
    ensures p.result.Success? <==> o.result.Success?
    ensures o.result.Success? ==> p.result.value == items + o.result.value
    ensures o.result.Failure? ==> p.result == o.result
  {
    Outcome(sent + o.sent,
            match o.result
            case Success(rest) => Success(items + rest)
            case Failure(e) => Failure(e))
  }

  /** Whether the loop guard lets a request to `url` go out. */
  predicate Continues(guard: LoopGuard, url: string) {
    guard == WhileTrue || url != ""
  }

  /** What the loop makes of each response of the script, in order. */
  function Readings(script: seq<Response>, fallback: string): (pages: seq<Result<Step, FetchError>>)
    ensures |pages| == |script|
    decreases |script|
  {
    if script == [] then [] else [ReadPage(script[0], fallback)] + Readings(script[1..], fallback)
  }

  /** The `k`-th reading is what the `k`-th response reads as. */
  lemma {:induction false} ReadingAt(script: seq<Response>, fallback: string, k: nat)
    requires k < |script|
    ensures Readings(script, fallback)[k] == ReadPage(script[k], fallback)
    decreases k
  {
    if k > 0 {
      ReadingAt(script[1..], fallback, k - 1);
    }
  }

  /**
   * The whole run from a request to `url` with `params`, where `pages` are
   * the readings of the responses still to come. On failure nothing
   * collected so far is returned: the exception leaves the function and
   * the accumulator with it.
   */
  function Paginate(guard: LoopGuard, url: string, params: Option<Params>,
                    pages: seq<Result<Step, FetchError>>): (o: Outcome)
    decreases |pages|
  {
    if !Continues(guard, url) then Outcome([], Success([]))
    else if pages == [] then Outcome([Request(url, params)], Failure(Transport))
    else
      match pages[0]
      case Failure(e) => Outcome([Request(url, params)], Failure(e))
      case Success(Step(items, None)) => Outcome([Request(url, params)], Success(items))
      case Success(Step(items, Some(next))) =>
        Prepend([Request(url, params)], items, Paginate(guard, next, None, pages[1..]))
  }

  /** The run against a server that answers with `script`. */
  function Run(guard: LoopGuard, url: string, params: Option<Params>, fallback: string,
               script: seq<Response>): Outcome
  {
    Paginate(guard, url, params, Readings(script, fallback))
  }

  lemma PrependPrepend(s1: seq<Request>, i1: seq<Json>, s2: seq<Request>, i2: seq<Json>, o: Outcome)
    ensures Prepend(s1, i1, Prepend(s2, i2, o)) == Prepend(s1 + s2, i1 + i2, o)
  {
    if o.result.Success? {
      assert i1 + (i2 + o.result.value) == (i1 + i2) + o.result.value;
    }
    assert s1 + (s2 + o.sent) == (s1 + s2) + o.sent;
  }

  /** A run that ends after one last request `req` returns or raises what that request does. */
  lemma PrependLast(sent: seq<Request>, items: seq<Json>, req: Request, last: Result<seq<Json>, FetchError>)
    ensures Prepend(sent, items, Outcome([req], last))
         == Outcome(sent + [req], if last.Success? then Success(items + last.value) else Failure(last.error))
  {
  }

  /** A run that stops before sending anything more returns what it has collected. */
  lemma PrependStop(sent: seq<Request>, items: seq<Json>)
    ensures Prepend(sent, items, Outcome([], Success([]))) == Outcome(sent, Success(items))
  {
    assert sent + [] == sent && items + [] == items;
  }

  lemma PrependNothing(o: Outcome)
    ensures Prepend([], [], o) == o
  {
    if o.result.Success? {
      assert [] + o.result.value == o.result.value;
    }
    assert [] + o.sent == o.sent;
  }

  /** The first `n` pages all read. */
  predicate PagesRead(pages: seq<Result<Step, FetchError>>, n: nat) {
    n <= |pages| && forall k :: 0 <= k < n ==> pages[k].Success?
  }

  /** The items of the first `n` pages, in arrival order. */
  function Collected(pages: seq<Result<Step, FetchError>>, n: nat): seq<Json>
    requires PagesRead(pages, n)
    decreases n
  {
    if n == 0 then [] else pages[0].value.items + Collected(pages[1..], n - 1)
  }

  /** Page `k` exists, reads, and names a next URL. */
  predicate LinksOn(pages: seq<Result<Step, FetchError>>, k: nat) {
    k < |pages| && pages[k].Success? && pages[k].value.next.Some?
  }

  /** A run sends at most one request more than the server answers, and none only when the guard stops it at once. */
  lemma {:induction false} RequestBound(guard: LoopGuard, url: string, params: Option<Params>,
                                        pages: seq<Result<Step, FetchError>>)
    ensures |Paginate(guard, url, params, pages).sent| <= |pages| + 1
    ensures Paginate(guard, url, params, pages).sent == [] <==> !Continues(guard, url)
    decreases |pages|
  {
    if Continues(guard, url) && pages != [] {
      match pages[0]
      case Failure(_) =>
      case Success(Step(_, None)) =>
      case Success(Step(items, Some(next))) =>
        RequestBound(guard, next, None, pages[1..]);
    }
  }

  /**
   * The requests of a run: the first goes to `url` with the caller's
   * params; each later one goes, without params, to the next URL of the
   * page before it.
   */
  lemma {:induction false} RequestsFollowLinks(guard: LoopGuard, url: string, params: Option<Params>,
                                               pages: seq<Result<Step, FetchError>>)
    requires Continues(guard, url)
    ensures var o := Paginate(guard, url, params, pages);
      |o.sent| >= 1 && o.sent[0] == Request(url, params) &&
      forall k :: 0 <= k < |o.sent| - 1 ==>
        LinksOn(pages, k) && o.sent[k + 1] == Request(pages[k].value.next.value, None)
    decreases |pages|
  {
    if pages != [] {
      match pages[0]
      case Failure(_) =>
      case Success(Step(_, None)) =>
      case Success(Step(items, Some(next))) =>
        var rest := Paginate(guard, next, None, pages[1..]);
        var o := Paginate(guard, url, params, pages);
        assert o.sent == [Request(url, params)] + rest.sent;
        if Continues(guard, next) {
          RequestsFollowLinks(guard, next, None, pages[1..]);
          forall k | 0 <= k < |o.sent| - 1
            ensures LinksOn(pages, k)
            ensures o.sent[k + 1] == Request(pages[k].value.next.value, None)
          {
            assert o.sent[k + 1] == rest.sent[k];
            if k > 0 {
              assert LinksOn(pages[1..], k - 1);
              assert pages[1..][k - 1] == pages[k];
            }
          }
        } else {
          assert rest.sent == [];
        }
    }
  }

  /**
   * A run that returns has read every page it requested, returns their
   * items concatenated in arrival order, and stopped on a page without a
   * next URL (or, under `while url:`, on an empty one).
   */
  lemma {:induction false} SuccessCollectsAll(guard: LoopGuard, url: string, params: Option<Params>,
                                              pages: seq<Result<Step, FetchError>>)
    requires Continues(guard, url)
    ensures var o := Paginate(guard, url, params, pages);
      o.result.Success? ==>
        var n := |o.sent|;
        n >= 1 && PagesRead(pages, n) && o.result.value == Collected(pages, n) &&
        (pages[n - 1].value.next == None || !Continues(guard, pages[n - 1].value.next.value))
    decreases |pages|
  {
    if pages != [] {
      match pages[0]
      case Failure(_) =>
      case Success(Step(items, None)) =>
        assert Collected(pages[1..], 0) == [];
        assert items + [] == items;
      case Success(Step(items, Some(next))) =>
        var rest := Paginate(guard, next, None, pages[1..]);
        if !Continues(guard, next) {
          assert rest == Outcome([], Success([]));
          assert Collected(pages[1..], 0) == [];
          assert items + [] == items;
        } else if rest.result.Success? {
          SuccessCollectsAll(guard, next, None, pages[1..]);
          var m := |rest.sent|;
          assert PagesRead(pages, m + 1) by {
            forall k | 0 <= k < m + 1
              ensures pages[k].Success?
            {
              if k > 0 {
                assert pages[1..][k - 1] == pages[k];
              }
            }
          }
          assert pages[1..][m - 1] == pages[m];
        }
    }
  }

  /**
   * A run that raises stopped at its last request, and every page before
   * that one read and pointed onwards. The error is the last page's own,
   * or a transport error for a request the server no longer answers.
   */
  lemma {:induction false} FailureStopsAtCause(guard: LoopGuard, url: string, params: Option<Params>,
                                               pages: seq<Result<Step, FetchError>>)
    requires Continues(guard, url)
    ensures var o := Paginate(guard, url, params, pages);
      o.result.Failure? ==>
        var n := |o.sent|;
        n >= 1 && (forall k :: 0 <= k < n - 1 ==> LinksOn(pages, k)) &&
        (if n - 1 == |pages| then o.result.error == Transport
         else n - 1 < |pages| && pages[n - 1] == Failure(o.result.error))
    decreases |pages|
  {
    if pages != [] {
      match pages[0]
      case Failure(_) =>
      case Success(Step(items, None)) =>
      case Success(Step(items, Some(next))) =>
        var rest := Paginate(guard, next, None, pages[1..]);
        if Continues(guard, next) && rest.result.Failure? {
          FailureStopsAtCause(guard, next, None, pages[1..]);
          var m := |rest.sent|;
          forall k | 0 <= k < m
            ensures LinksOn(pages, k)
          {
            if k > 0 {
              assert LinksOn(pages[1..], k - 1);
              assert pages[1..][k - 1] == pages[k];
            }
          }
          if m - 1 < |pages| - 1 {
            assert pages[1..][m - 1] == pages[m];
          }
        }
    }
  }

  /**
   * The method form of the loop keeps the requests sent and the items
   * collected so far; what remains of the run is `Paginate` on the pages
   * not yet read.
   */
  lemma FollowLink(guard: LoopGuard, url: string, params: Option<Params>,
                   pages: seq<Result<Step, FetchError>>)
    requires Continues(guard, url) && pages != []
    requires pages[0].Success? && pages[0].value.next.Some?
    ensures Paginate(guard, url, params, pages)
         == Prepend([Request(url, params)], pages[0].value.items,
                    Paginate(guard, pages[0].value.next.value, None, pages[1..]))
  {
  }

  /**
   * The body of the loop's `try` block for the `i`-th request: the answer is
   * read (a request past the end of the script fails as a transport error)
   * and the run from here is what that reading makes of it.
   */
  method FetchStep(guard: LoopGuard, url: string, params: Option<Params>, script: seq<Response>,
                   i: nat, fallback: string)
    returns (page: Result<Step, FetchError>)
    requires Continues(guard, url) && i <= |script|
    ensures page.Success? ==> i < |script|
    ensures page.Failure? ==>
      Paginate(guard, url, params, Readings(script, fallback)[i..])
        == Outcome([Request(url, params)], Failure(page.error))
    ensures page.Success? && page.value.next.None? ==>
      Paginate(guard, url, params, Readings(script, fallback)[i..])
        == Outcome([Request(url, params)], Success(page.value.items))
    ensures page.Success? && page.value.next.Some? ==>
      Paginate(guard, url, params, Readings(script, fallback)[i..])
        == Prepend([Request(url, params)], page.value.items,
                   Paginate(guard, page.value.next.value, None, Readings(script, fallback)[i + 1..]))
  {
    ghost var pages := Readings(script, fallback);
    if i == |script| {
      assert pages[i..] == [];
      return Failure(Transport);
    }
    page := ReadPage(script[i], fallback);
    ReadingAt(script, fallback, i);
    assert pages[i..][0] == page;
    assert pages[i..][1..] == pages[i + 1..];
  }

  /** No page that reads names an empty next URL. */
  predicate NoEmptyLinks(pages: seq<Result<Step, FetchError>>) {
    forall k :: 0 <= k < |pages| ==> !(pages[k].Success? && pages[k].value.next == Some(""))
  }

  /**
   * The `while url:` and the `while True:` forms of the loop differ only on
   * an empty next URL: the first stops there and returns, the second sends
   * a request to it.
   */
  lemma {:induction false} GuardsAgree(url: string, params: Option<Params>,
                                       pages: seq<Result<Step, FetchError>>)
    requires url != "" && NoEmptyLinks(pages)
    ensures Paginate(WhileUrl, url, params, pages) == Paginate(WhileTrue, url, params, pages)
    decreases |pages|
  {
    if pages != [] {
      match pages[0]
      case Failure(_) =>
      case Success(Step(_, None)) =>
      case Success(Step(items, Some(next))) =>
        assert NoEmptyLinks(pages[1..]) by {
          forall k | 0 <= k < |pages[1..]|
            ensures !(pages[1..][k].Success? && pages[1..][k].value.next == Some(""))
          {
            assert pages[1..][k] == pages[k + 1];
          }
        }
        GuardsAgree(next, None, pages[1..]);
    }
  }

  /** A page without a "results" key adds no items. */
  lemma MissingResultsAddNothing(status: int, members: seq<(string, Json)>, fallback: string)
    requires !RaisesForStatus(status)
    requires forall i :: 0 <= i < |members| ==> members[i].0 != "results"
    ensures ReadPage(Reply(status, Some(JObj(members))), fallback)
         == ReadPage(Reply(status, Some(JObj(members + [("results", JArr([]))]))), fallback)
    ensures ReadPage(Reply(status, Some(JObj(members))), fallback).Success?
        ==> ReadPage(Reply(status, Some(JObj(members))), fallback).value.items == []
  {
    GetOrAppend(members, ("results", JArr([])), "results", JArr([]));
    GetOrAppend(members, ("results", JArr([])), "_links", JObj([]));
  }

  /**
   * A reply of the documented shape, `{"results": [...], "_links": {...}}`,
   * reads as its items and, for a truthy string "next", the resolution of
   * that link against a string "base".
   */
  lemma DocumentedPageReads(status: int, items: seq<Json>, links: seq<(string, Json)>, fallback: string)
    requires !RaisesForStatus(status)
    requires var next := GetOr(links, "next", JNull);
      Truthy(next) ==> next.JStr? && GetOr(links, "base", JStr(fallback)).JStr?
    ensures var next := GetOr(links, "next", JNull);
      ReadPage(Reply(status, Some(JObj([("results", JArr(items)), ("_links", JObj(links))]))), fallback)
        == Success(Step(items, if Truthy(next) then Some(UrlJoin(GetOr(links, "base", JStr(fallback)).s, next.s)) else None))
  {
    var members := [("results", JArr(items)), ("_links", JObj(links))];
    GetOrAppend([("results", JArr(items))], ("_links", JObj(links)), "results", JArr([]));
    GetOrAppend([("results", JArr(items))], ("_links", JObj(links)), "_links", JObj([]));
    assert [("results", JArr(items))] + [("_links", JObj(links))] == members;
  }

  /**
   * Exactly when a reply reads: a non-raising status with a dict body whose
   * "results" (default []) can be iterated, whose "_links" (default {}) is
   * a dict, and whose truthy "next", if any, can be resolved against its
   * "base" (default the client's base URL).
   */
  lemma ReadPageReads(status: int, body: Json, fallback: string)
    requires !RaisesForStatus(status)
    ensures ReadPage(Reply(status, Some(body)), fallback).Success? <==>
      body.JObj? &&
      Iterate(GetOr(body.members, "results", JArr([]))).Success? &&
      GetOr(body.members, "_links", JObj([])).JObj? &&
      var links := GetOr(body.members, "_links", JObj([])).members;
      var next := GetOr(links, "next", JNull);
      (Truthy(next) ==> JoinNext(GetOr(links, "base", JStr(fallback)), next).Success?)
  {
  }

  /**
   * A reply whose `_links.next` is an absolute URL without dot segments
   * names that URL as the next one, whatever string `_links.base` holds,
   * and whether or not it is there.
   */
  lemma AbsoluteNextVerbatim(resp: Response, fallback: string, ref: string)
    requires resp.Reply? && resp.body.Some? && resp.body.value.JObj?
    requires ReadPage(resp, fallback).Success?
    requires var links := GetOr(resp.body.value.members, "_links", JObj([]));
      links.JObj? && GetOr(links.members, "next", JNull) == JStr(ref) &&
      GetOr(links.members, "base", JStr(fallback)).JStr?
    requires Parse(ref).scheme.Some? && NoDotSegments(Parse(ref).path)
    ensures ReadPage(resp, fallback).value.next == Some(ref)
  {
    var links := GetOr(resp.body.value.members, "_links", JObj([]));
    var base := GetOr(links.members, "base", JStr(fallback));
    ReadPageSuccess(resp, fallback);
    AbsoluteReferenceVerbatim(base.s, ref);
  }

  /**
   * The request after page `k` goes to that page's absolute next URL
   * exactly as the server wrote it.
   */
  lemma NextRequestVerbatim(guard: LoopGuard, url: string, params: Option<Params>, fallback: string,
                            script: seq<Response>, k: nat, ref: string)
    requires k < |script| && script[k].Reply? && script[k].body.Some? && script[k].body.value.JObj?
    requires ReadPage(script[k], fallback).Success?
    requires var links := GetOr(script[k].body.value.members, "_links", JObj([]));
      links.JObj? && GetOr(links.members, "next", JNull) == JStr(ref) &&
      GetOr(links.members, "base", JStr(fallback)).JStr?
    requires Parse(ref).scheme.Some? && NoDotSegments(Parse(ref).path)
    ensures var o := Run(guard, url, params, fallback, script);
      k + 1 < |o.sent| ==> o.sent[k + 1] == Request(ref, None)
  {
    var pages := Readings(script, fallback);
    ReadingAt(script, fallback, k);
    AbsoluteNextVerbatim(script[k], fallback, ref);
    if Continues(guard, url) {
      RequestsFollowLinks(guard, url, params, pages);
    } else {
      assert Paginate(guard, url, params, pages).sent == [];
    }
  }

  /**
   * `n` pages that read, the first `n - 1` of them linked onwards to a URL
   * the guard lets through and the last without a next URL: the run sends
   * exactly `n` requests and returns the items of the `n` pages in order.
   */
  lemma {:induction false} LinkedPagesCollected(guard: LoopGuard, url: string, params: Option<Params>,
                                                pages: seq<Result<Step, FetchError>>, n: nat)
    requires Continues(guard, url) && 1 <= n && PagesRead(pages, n)
    requires forall k :: 0 <= k < n - 1 ==>
      pages[k].value.next.Some? && Continues(guard, pages[k].value.next.value)
    requires pages[n - 1].value.next.None?
    ensures |Paginate(guard, url, params, pages).sent| == n
    ensures Paginate(guard, url, params, pages).result == Success(Collected(pages, n))
    decreases n
  {
    var items := pages[0].value.items;
    assert Collected(pages, n) == items + Collected(pages[1..], n - 1);
    if n == 1 {
      assert items + [] == items;
    } else {
      var next := pages[0].value.next.value;
      assert PagesRead(pages[1..], n - 1) by {
        forall k | 0 <= k < n - 1
          ensures pages[1..][k].Success?
        {
          assert pages[1..][k] == pages[k + 1];
        }
      }
      forall k | 0 <= k < n - 2
        ensures pages[1..][k].value.next.Some? && Continues(guard, pages[1..][k].value.next.value)
      {
        assert pages[1..][k] == pages[k + 1];
      }
      assert pages[1..][n - 2] == pages[n - 1];
      LinkedPagesCollected(guard, next, None, pages[1..], n - 1);
    }
  }

  /**
   * A 200 response whose body is `{"results": [], "_links": {}}` ends the
   * run after exactly one request with an empty list.
   */
  lemma EmptyCollection(guard: LoopGuard, url: string, params: Option<Params>, fallback: string,
                        body: Json)
    requires Continues(guard, url)
    requires body == JObj([("results", JArr([])), ("_links", JObj([]))])
    ensures Run(guard, url, params, fallback, [Reply(200, Some(body))])
         == Outcome([Request(url, params)], Success([]))
  {
    var members := body.members;
    assert Find(members, "results") == Some(JArr([])) by {
      assert members[1].0 != "results" && members[0].0 == "results";
    }
    assert Find(members, "_links") == Some(JObj([])) by {
      assert members[1].0 == "_links";
    }
    assert ReadPage(Reply(200, Some(body)), fallback) == Success(Step([], None));
  }

  /**
   * A server error on the second of three pages: two requests, and the run
   * raises the status instead of returning the first page's items.
   */
  lemma ErrorOnSecondPage(guard: LoopGuard, url: string, params: Option<Params>, fallback: string,
                          first: Response, third: Response, next: string)
    requires Continues(guard, url) && Continues(guard, next)
    requires ReadPage(first, fallback).Success? && ReadPage(first, fallback).value.next == Some(next)
    ensures Run(guard, url, params, fallback, [first, Reply(503, None), third])
         == Outcome([Request(url, params), Request(next, None)], Failure(HttpStatus(503)))
  {
    var script := [first, Reply(503, None), third];
    var pages := Readings(script, fallback);
    ReadingAt(script, fallback, 0);
    ReadingAt(script, fallback, 1);
    assert pages[1] == Failure(HttpStatus(503));
    assert pages[1..][0] == pages[1];
    assert Paginate(guard, next, None, pages[1..])
        == Outcome([Request(next, None)], Failure(HttpStatus(503)));
  }
}
