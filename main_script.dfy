/**
 * The stand-alone backup script: the same pagination protocol as the
 * client, written as a `while True:` loop over the pages of one space, with
 * the configuration read at start-up and the collected list as what the
 * script writes to its backup file.
 */
module MainScript {
  import opened Wrappers
  import opened JsonValue
  import opened Pagination
  import opened Client

  /** The collection the script backs up. */
  const ResourceType: string := "pages"

  /** The query of the first request: one fixed space, bodies in storage format. */
  const ScriptParams: Params := [("space-id", JStr("589866")), ("body-format", JStr("storage"))]

  /**
   * The backup run: the requests sent and the list the script writes, or
   * the error that ends it before anything is written. A missing setting
   * raises before any request.
   */
  method Backup(env: map<string, string>, script: seq<Response>)
    returns (sent: seq<Request>, result: Result<seq<Json>, FetchError>)
    ensures LoadConfig(env).Failure? ==> sent == [] && result == Failure(Python(LoadConfig(env).error))
    ensures LoadConfig(env).Success? ==>
      var baseUrl := BaseUrl(LoadConfig(env).value.domain);
      Outcome(sent, result) == Run(WhileTrue, FirstUrl(baseUrl, ResourceType), Some(ScriptParams), baseUrl, script)
  {
    var config := LoadConfig(env);
    if config.Failure? {
      sent, result := [], Failure(Python(config.error));
      return;
    }
    sent, result := CollectPages(BaseUrl(config.value.domain), script);
  }

  /**
   * The script's `while True:` loop from the first listing URL of the site
   * at `baseUrl`, against a server that answers with `script`.
   */
  method CollectPages(baseUrl: string, script: seq<Response>)
    returns (sent: seq<Request>, result: Result<seq<Json>, FetchError>)
    ensures Outcome(sent, result) == Run(WhileTrue, FirstUrl(baseUrl, ResourceType), Some(ScriptParams), baseUrl, script)
  {
    var params := ScriptParams;
    ghost var pages := Readings(script, baseUrl);
    ghost var whole := Run(WhileTrue, FirstUrl(baseUrl, ResourceType), Some(params), baseUrl, script);
    var allResults: seq<Json> := [];
    var url := FirstUrl(baseUrl, ResourceType);
    var first := true;
    var i := 0;
    sent := [];
    PrependNothing(whole);
    while true
      invariant 0 <= i <= |script|
      invariant first ==> i == 0
      invariant whole == Prepend(sent, allResults,
        Paginate(WhileTrue, url, if first then Some(params) else None, pages[i..]))
      decreases |script| - i
    {
      var reqParams := if first then Some(params) else None;
      var page := FetchStep(WhileTrue, url, reqParams, script, i, baseUrl);
      if page.Failure? {
        PrependLast(sent, allResults, Request(url, reqParams), Failure(page.error));
        sent, result := sent + [Request(url, reqParams)], Failure(page.error);
        return;
      }
      if page.value.next.None? {
        PrependLast(sent, allResults, Request(url, reqParams), Success(page.value.items));
        sent, allResults := sent + [Request(url, reqParams)], allResults + page.value.items;
        break;
      }
      PrependPrepend(sent, allResults, [Request(url, reqParams)], page.value.items,
                     Paginate(WhileTrue, page.value.next.value, None, pages[i + 1..]));
      sent := sent + [Request(url, reqParams)];
      allResults := allResults + page.value.items;
      url := page.value.next.value;
      first := false;
      i := i + 1;
    }
    result := Success(allResults);
  }
}
