/**
 * The Confluence Cloud client: its configuration, its base URL, the
 * `while url:` pagination loop over one resource collection, and the thin
 * wrappers that fetch spaces, space ids and the pages of a space.
 */
module Client {
  import opened Wrappers
  import opened JsonValue
  import opened Url
  import opened Pagination

  /** The three settings read from the `.env` file. */
  datatype Config = Config(domain: string, email: string, apiToken: string)

  /**
   * `config["DOMAIN"]`, `config["EMAIL"]`, `config["API_TOKEN"]` in that
   * order: the first missing key raises its KeyError.
   */
  function LoadConfig(env: map<string, string>): (r: Result<Config, PyError>)
    ensures r.Success? <==> "DOMAIN" in env && "EMAIL" in env && "API_TOKEN" in env
    ensures r.Success? ==> r.value == Config(env["DOMAIN"], env["EMAIL"], env["API_TOKEN"])
    ensures "DOMAIN" !in env ==> r == Failure(KeyError("DOMAIN"))
    ensures "DOMAIN" in env && "EMAIL" !in env ==> r == Failure(KeyError("EMAIL"))
    ensures "DOMAIN" in env && "EMAIL" in env && "API_TOKEN" !in env ==> r == Failure(KeyError("API_TOKEN"))
  {
    if "DOMAIN" !in env then Failure(KeyError("DOMAIN"))
    else if "EMAIL" !in env then Failure(KeyError("EMAIL"))
    else if "API_TOKEN" !in env then Failure(KeyError("API_TOKEN"))
    else Success(Config(env["DOMAIN"], env["EMAIL"], env["API_TOKEN"]))
  }

  /** The site's wiki root. */
  function BaseUrl(domain: string): string {
    "https://" + domain + "/wiki"
  }

  /** Where the listing of a resource collection starts. */
  function FirstUrl(baseUrl: string, resourceType: string): string {
    baseUrl + "/api/v2/" + resourceType
  }

  /** The first listing URL of a site, written out. */
  lemma FirstUrlOfSite(domain: string, resourceType: string)
    ensures FirstUrl(BaseUrl(domain), resourceType) == "https://" + domain + "/wiki/api/v2/" + resourceType
  {
    assert "/wiki" + "/api/v2/" == "/wiki/api/v2/";
  }

  /**
   * A continuation link the API sends as a path and query, resolved against
   * the client's base URL when the page names no base of its own: the
   * "/wiki" of the base is replaced, not kept.
   */
  lemma {:induction false} NextLinkAgainstBaseUrl(domain: string, path: string, query: string)
    requires '/' !in domain && '?' !in domain && '#' !in domain
    requires path != [] && path[0] == '/' && (|path| < 2 || path[1] != '/')
    requires '?' !in path && '#' !in path && '#' !in query && NoDotSegments(path)
    ensures UrlJoin(BaseUrl(domain), path + "?" + query) == "https://" + domain + path + "?" + query
  {
    assert "https://" == "https" + "://";
    assert BaseUrl(domain) == "https" + "://" + domain + "/wiki";
    PathAbsoluteAgainstAbsoluteBase("https", domain, "/wiki", path, query);
  }

  /** `{"id": space_ids} if space_ids else None`. */
  function SpacesParams(spaceIds: Option<seq<int>>): (p: Option<Params>)
    ensures p.Some? <==> spaceIds.Some? && spaceIds.value != []
    ensures p.Some? ==> (
      |p.value| == 1 && p.value[0].0 == "id" && p.value[0].1.JArr? &&
      |p.value[0].1.items| == |spaceIds.value| &&
      forall k :: 0 <= k < |spaceIds.value| ==> p.value[0].1.items[k] == JInt(spaceIds.value[k]))
  {
    if spaceIds.Some? && spaceIds.value != [] then
      Some([("id", JArr(seq(|spaceIds.value|, k requires 0 <= k < |spaceIds.value| => JInt(spaceIds.value[k]))))])
    else None
  }

  /** `{"space-id": space_id, "body-format": body_format}`. */
  function PagesParams(spaceId: int, bodyFormat: string): (p: Params)
    ensures |p| == 2 && p[0] == ("space-id", JInt(spaceId)) && p[1] == ("body-format", JStr(bodyFormat))
  {
    [("space-id", JInt(spaceId)), ("body-format", JStr(bodyFormat))]
  }

  /**
   * `[space['id'] for space in spaces]`: the first space that is not a dict
   * with an "id" raises.
   */
  function ProjectIds(spaces: seq<Json>): (r: Result<seq<Json>, PyError>)
    ensures r.Success? <==> forall k :: 0 <= k < |spaces| ==> Subscript(spaces[k], "id").Success?
    ensures r.Success? ==> (
      |r.value| == |spaces| &&
      forall k :: 0 <= k < |spaces| ==> r.value[k] == Subscript(spaces[k], "id").value)
    ensures r.Failure? ==> exists k :: (
      0 <= k < |spaces| && Subscript(spaces[k], "id") == Failure(r.error) &&
      forall j :: 0 <= j < k ==> Subscript(spaces[j], "id").Success?)
    decreases |spaces|
  {
    if spaces == [] then Success([])
    else
      var id := Subscript(spaces[0], "id");
      if id.Failure? then
        assert Subscript(spaces[0], "id") == Failure(id.error);
        Failure(id.error)
      else
        var rest := ProjectIds(spaces[1..]);
        assert forall k :: 1 <= k < |spaces| ==> spaces[1..][k - 1] == spaces[k];
        if rest.Failure? then
          var k :| 0 <= k < |spaces[1..]| && Subscript(spaces[1..][k], "id") == Failure(rest.error) &&
            forall j :: 0 <= j < k ==> Subscript(spaces[1..][j], "id").Success?;
          assert Subscript(spaces[k + 1], "id") == Failure(rest.error);
          assert forall j :: 0 <= j < k + 1 ==> Subscript(spaces[j], "id").Success? by {
            forall j | 0 <= j < k + 1
              ensures Subscript(spaces[j], "id").Success?
            {
              if j > 0 {
                assert spaces[1..][j - 1] == spaces[j];
              }
            }
          }
          Failure(rest.error)
        else
          Success([id.value] + rest.value)
  }

  class ConfluenceClient {
    const domain: string
    const email: string
    const apiToken: string
    const baseUrl: string

    /** The client for a loaded configuration; the HTTP session is not modelled. */
    constructor(config: Config)
      ensures domain == config.domain && email == config.email && apiToken == config.apiToken
      ensures baseUrl == BaseUrl(config.domain)
    {
      domain := config.domain;
      email := config.email;
      apiToken := config.apiToken;
      baseUrl := BaseUrl(config.domain);
    }

    /**
     * Every item of the `resourceType` collection, following continuation
     * links from the first listing URL, against a server that answers with
     * `script`. Returns the requests sent and the list or the error raised.
     */
    method FetchAllResources(resourceType: string, params: Option<Params>, script: seq<Response>)
      returns (sent: seq<Request>, result: Result<seq<Json>, FetchError>)
      ensures Outcome(sent, result) == Run(WhileUrl, FirstUrl(baseUrl, resourceType), params, baseUrl, script)
    {
      ghost var pages := Readings(script, baseUrl);
      ghost var whole := Run(WhileUrl, FirstUrl(baseUrl, resourceType), params, baseUrl, script);
      var allResults: seq<Json> := [];
      var url := FirstUrl(baseUrl, resourceType);
      var firstRequest := true;
      var i := 0;
      sent := [];
      PrependNothing(whole);
      while url != ""
        invariant 0 <= i <= |script|
        invariant firstRequest ==> i == 0
        invariant whole == Prepend(sent, allResults,
          Paginate(WhileUrl, url, if firstRequest then params else None, pages[i..]))
        decreases |script| - i
      {
        var currentParams := if firstRequest then params else None;
        var page := FetchStep(WhileUrl, url, currentParams, script, i, baseUrl);
        if page.Failure? {
          PrependLast(sent, allResults, Request(url, currentParams), Failure(page.error));
          sent, result := sent + [Request(url, currentParams)], Failure(page.error);
          return;
        }
        if page.value.next.None? {
          PrependLast(sent, allResults, Request(url, currentParams), Success(page.value.items));
          PrependStop(sent + [Request(url, currentParams)], allResults + page.value.items);
          sent, allResults := sent + [Request(url, currentParams)], allResults + page.value.items;
          break;
        }
        PrependPrepend(sent, allResults, [Request(url, currentParams)], page.value.items,
                       Paginate(WhileUrl, page.value.next.value, None, pages[i + 1..]));
        sent := sent + [Request(url, currentParams)];
        allResults := allResults + page.value.items;
        url := page.value.next.value;
        firstRequest := false;
        i := i + 1;
      }
      PrependStop(sent, allResults);
      result := Success(allResults);
    }

    /** All spaces, or only those whose ids are given. */
    method GetSpaces(spaceIds: Option<seq<int>>, script: seq<Response>)
      returns (sent: seq<Request>, result: Result<seq<Json>, FetchError>)
      ensures Outcome(sent, result)
           == Run(WhileUrl, FirstUrl(baseUrl, "spaces"), SpacesParams(spaceIds), baseUrl, script)
    {
      sent, result := FetchAllResources("spaces", SpacesParams(spaceIds), script);
    }

    /** The id of every space, in listing order. */
    method GetSpaceIds(script: seq<Response>)
      returns (sent: seq<Request>, result: Result<seq<Json>, FetchError>)
      ensures var o := Run(WhileUrl, FirstUrl(baseUrl, "spaces"), None, baseUrl, script);
        sent == o.sent &&
        result == (if o.result.Failure? then Failure(o.result.error) else Lift(ProjectIds(o.result.value)))
    {
      var spaces;
      sent, spaces := GetSpaces(None, script);
      if spaces.Failure? {
        result := Failure(spaces.error);
      } else {
        result := Lift(ProjectIds(spaces.value));
      }
    }

    /** Every page of one space, with its body in `bodyFormat`. */
    method GetPagesFromSpace(spaceId: int, script: seq<Response>, bodyFormat: string := "storage")
      returns (sent: seq<Request>, result: Result<seq<Json>, FetchError>)
      ensures Outcome(sent, result)
           == Run(WhileUrl, FirstUrl(baseUrl, "pages"), Some(PagesParams(spaceId, bodyFormat)), baseUrl, script)
    {
      sent, result := FetchAllResources("pages", Some(PagesParams(spaceId, bodyFormat)), script);
    }
  }
}
