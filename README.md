# Confluence Cloud backup: a verified model

This project models the core of a small tool that backs up a Confluence
Cloud wiki.

- **Client.** `confluence_client.py` holds the API client. Its
  `_fetch_all_resources` loop follows the cursor links of the REST API v2
  and collects every item of a collection. Its thin wrappers fetch the
  spaces, the space ids and the pages of one space.
- **Backup script.** `main.py` repeats the same protocol as a module-level
  `while True:` loop.
- **Exporter.** `parser.py` turns a list of backed-up pages into a
  directory tree: one `{id}.json` metadata file per page with an id, and
  one `{id}.html` document per page that also has a body.
- **Name lookup.** `tests.py` builds an id-to-name dictionary of the
  spaces, looks up a space id by name, and raises when the name is missing.
- **Titles.** `parsing_tests.py` extracts page titles and sanitises them
  for use as file names.

The modules are:

| module | file | models |
|---|---|---|
| `Wrappers` | wrappers.dfy | `Option` and `Result` |
| `JsonValue` | json_value.dfy | decoded JSON and the Python operations the scripts apply to it |
| `Url` | url.dfy | `urljoin` as reference resolution, following section 5 of RFC 3986 |
| `Pagination` | pagination.dfy | the cursor protocol both loops share, against a scripted server |
| `Client` | confluence_client.dfy | `ConfluenceClient` |
| `MainScript` | main_script.dfy | `main.py` |
| `Exporter` | parser.dfy | `parser.py` |
| `SpaceLookup` | tests.dfy | `tests.py` |
| `TitleSanitiser` | parsing_tests.dfy | `parsing_tests.py` |

The Python operations `JsonValue` covers are truthiness, `dict.get`,
subscription, iteration and `str()`.

**The server.** The server is a finite script of responses. The k-th
request receives the k-th response. A request past the end of the script
fails as a transport error would, which gives every loop a termination
measure.

**Specification functions.** Each loop is proved, as a method, equal to a
specification function:

- both fetch loops to `Pagination.Run`;
- the export loop to `Exporter.ExportAll`;
- the dictionary loop to `SpaceLookup.SpaceInfo`;
- the two title loops to `TitleSanitiser.Titles` and
  `TitleSanitiser.SanitisedAll`.

The properties of each specification function are then proved as lemmas.
The specification functions themselves, with the lines they follow, are:

- `Url.UrlJoin`: `urljoin` (confluence_client.py:73);
- `Pagination.Paginate` and `Pagination.Run`: the fetch loop over the
  readings of the script (confluence_client.py:51-80, main.py:72-103);
- `Exporter.ExportPage`, `Exporter.Export` and `Exporter.ExportAll`: one
  iteration of the export loop, the loop over a list, and the loop over
  the loaded data (parser.py:236-280);
- `SpaceLookup.Entry`: the name and id of one listed space (tests.py:26-27);
- `TitleSanitiser.Sanitise`, `TitleSanitiser.Titles` and
  `TitleSanitiser.SanitisedAll`: the body of the second title loop and the
  results of the two loops (parsing_tests.py:11-27).

Their properties are stated by the lemmas and methods in the table below.

**Python exceptions.** The exceptions an unexpected value raises are
modelled as error values and not ruled out by preconditions. Examples are
an `AttributeError` from `.get` on a list, and a `TypeError` from
subscripting a string or from an unhashable dictionary key.

**Where a next link goes.** The next link is resolved with `urljoin`,
which follows section 5.2.2 of RFC 3986. A link that starts with a single
"/" replaces the whole path of the base. So
"/api/v2/spaces?cursor=abc" resolved against "https://example.com/wiki"
gives "https://example.com/api/v2/spaces?cursor=abc": the "/wiki" is
dropped (`Url.PathAbsoluteExample`, `Client.NextLinkAgainstBaseUrl`).

**Which statuses raise.** `raise_for_status` raises only for statuses from
400 to 599. Any other status, a 3xx included, is read as a page
(`Pagination.RaisesForStatus`).

**Output paths.** `pathlib` keeps a `..` part of a path as it is. The
export puts the text of a page's id, space id and parent id into its
paths, so a `..` part in any of them makes the export write outside the
output root. The lemmas that keep the writes inside the root therefore
require plain names (`Exporter.PlainNames`): no `..` part, and an id
whose text does not start with "/".

## Model

| member | source | states |
|---|---|---|
| Url.SchemeFollowsGrammar | confluence_client.py:73 | a reference has a scheme only when the text before its first `:` is a letter followed by letters, digits, "+", "-" and "."; otherwise it is relative |
| Url.UnderscoreIsNoScheme | confluence_client.py:73 | "a_b:c" has no scheme, so it is resolved as a relative path |
| Url.ParseRecompose | confluence_client.py:73 | splitting a reference into scheme, authority, path, query and fragment and recomposing them gives the reference back |
| Url.AbsoluteReferenceVerbatim | confluence_client.py:73 | a next link with a scheme and no dot segments is used verbatim, whatever the base |
| Url.PathAbsoluteReplacesBasePath | confluence_client.py:73 | a link starting with a single "/" keeps the base's scheme and authority and replaces its whole path |
| Url.RelativePathReplacesLastSegment | confluence_client.py:73 | a relative-path link replaces the last segment of the base path, as section 5.2.3 of RFC 3986 merges |
| Url.PathAbsoluteAgainstAbsoluteBase | confluence_client.py:72-73 | for a base `scheme://authority/path`, a link `/p?q` resolves to `scheme://authority/p?q` |
| Url.PathAbsoluteExample | confluence_client.py:72-73 | "/api/v2/spaces?cursor=abc" against "https://example.com/wiki" gives a URL without "/wiki" |
| Pagination.JoinNext | confluence_client.py:72-73 | a falsy base leaves the link as it is; two strings are resolved with `urljoin`; mixing a string with a non-string raises a TypeError |
| Pagination.ReadPage | confluence_client.py:59-73 | no response is a transport error; status 400-599 raises that status; an undecodable body raises; a page that reads came from a decodable, non-failing reply |
| Pagination.ReadPageSuccess | confluence_client.py:61-73 | a page that reads has a dict body; its items are the iteration of "results" (default `[]`); "_links" (default `{}`) is a dict; there is no next URL exactly when "next" is falsy, and otherwise the next URL is "next" resolved against "base" (default the client's base URL) |
| Pagination.AbsoluteNextVerbatim | confluence_client.py:65-73 | a string next link with a scheme and no dot segments, against a string base, is the next URL exactly as written |
| Pagination.NextRequestVerbatim | confluence_client.py:55-74 | when the k-th response reads and names such a link, the request after it, if any, goes to that link without params |
| Pagination.LinkedPagesCollected | confluence_client.py:55-80 | when the first n responses read, each of the first n-1 names a next URL the guard lets through, and the n-th names none, the run sends exactly n requests and returns the items of those n pages in order |
| Pagination.MissingResultsAddNothing | confluence_client.py:63 | a missing "results" key is no error: the reply reads exactly as the same reply with `"results": []` added, and contributes no items |
| Pagination.ReadPageReads | confluence_client.py:59-73 | a reply with a non-raising status reads exactly when its body is a dict, "results" (default `[]`) can be iterated, "_links" (default `{}`) is a dict, and a truthy "next" can be resolved against "base" |
| Pagination.DocumentedPageReads | confluence_client.py:61-73 | a reply `{"results": items, "_links": links}` reads as `items`, with no next URL for a falsy "next" and otherwise `urljoin(base, next)` for string links |
| Pagination.ReadingAt | confluence_client.py:59-61 | the k-th reading of the script is what the k-th response reads as |
| Pagination.FetchStep | confluence_client.py:56-74 | one pass of the loop body: a failed read ends the run with that error; a page without next ends it with its items; otherwise the run continues from the next URL without params |
| Pagination.RequestBound | confluence_client.py:55-69 | a run sends at most one request more than there are responses, and none exactly when the guard stops it at once |
| Pagination.RequestsFollowLinks | confluence_client.py:55-74 | the first request goes to the first URL with the caller's params; each later one goes, with no params, to the next URL of the page before it |
| Pagination.SuccessCollectsAll | confluence_client.py:51-80 | a run that returns has read every page it requested, returns their items concatenated in arrival order, and stopped on the first page with no (or, under `while url:`, an empty) next URL |
| Pagination.FailureStopsAtCause | confluence_client.py:55-78 | a run that raises returns nothing; every earlier page read and pointed onwards; the error is the last page's own, or a transport error past the end of the script |
| Pagination.FollowLink | confluence_client.py:65-74 | after a page with a next URL, the run is that request and its items followed by the run from the next URL without params |
| Pagination.GuardsAgree | main.py:75-103 | the `while url:` and the `while True:` forms agree whenever no page names an empty next URL |
| Pagination.EmptyCollection | confluence_client.py:61-69 | a 200 reply `{"results": [], "_links": {}}` ends the run after exactly one request with `[]` |
| Pagination.ErrorOnSecondPage | confluence_client.py:59-78 | a 503 on the second page raises after two requests, and the first page's items are not returned |
| Client.LoadConfig | confluence_client.py:22-29 | succeeds exactly when DOMAIN, EMAIL and API_TOKEN are all present, and otherwise raises the KeyError of the first missing one, in that order |
| Client.FirstUrlOfSite | confluence_client.py:52 | the first listing URL is `https://{domain}/wiki/api/v2/{resource_type}` |
| Client.NextLinkAgainstBaseUrl | confluence_client.py:72-73 | a path-and-query link resolved against the client's base URL replaces "/wiki" and keeps the host |
| Client.SpacesParams | confluence_client.py:89 | the params are `{"id": space_ids}` exactly when ids are given and non-empty, otherwise none |
| Client.PagesParams | confluence_client.py:112 | the params are space-id then body-format, with their values |
| Client.ProjectIds | confluence_client.py:100 | succeeds exactly when every space has an "id"; then it is the ids in order with the same length; otherwise the error of the first space without one |
| Client.ConfluenceClient.constructor | confluence_client.py:18-31 | the client keeps the configuration, and its base URL is `https://{domain}/wiki` |
| Client.ConfluenceClient.FetchAllResources | confluence_client.py:43-80 | the requests sent and the list or error returned are exactly `Run(WhileUrl, ...)` from the first listing URL with the caller's params |
| Client.ConfluenceClient.GetSpaces | confluence_client.py:82-93 | the `while url:` run over "spaces" with `SpacesParams` |
| Client.ConfluenceClient.GetSpaceIds | confluence_client.py:95-102 | the requests of the spaces run, and its error or the ids of its spaces in order |
| Client.ConfluenceClient.GetPagesFromSpace | confluence_client.py:104-116 | the `while url:` run over "pages" with `PagesParams`, the body format defaulting to "storage" |
| MainScript.Backup | main.py:52-103 | a missing setting raises before any request; otherwise the run is `Run(WhileTrue, ...)` from `BASE_URL + "/api/v2/pages"` with the script's fixed params |
| MainScript.CollectPages | main.py:72-103 | the script's `while True:` loop is exactly `Run(WhileTrue, ...)`: params on the first request only, and the whole list or error |
| Exporter.Join | parser.py:102-107 | `dir / s` adds the parts of `s` below `dir`, and a string starting with "/" replaces `dir` |
| Exporter.OutputDir | parser.py:93-110 | a page's directory is the output root's parts, then the parts of `space-{spaceId}` ("unknown-space" when absent), then those of `folder-{parentId}` or of "folder-root" |
| Exporter.OutputDirInsideRoot | parser.py:93-110 | when the space id and a truthy parent id have no `..` part, the directory starts with the output root and nothing after it climbs out |
| Exporter.SegmentsPrefix | parser.py:102-107 | a prefix without "/" that does not start with ".", such as "space-", brings no `..` part into a path |
| Exporter.SegmentsSuffix | parser.py:265-276 | a suffix without "/" that does not end in ".", such as ".json", brings no `..` part into a path |
| Exporter.UnknownSpaceOnlyWhenAbsent | parser.py:99-102 | "space-unknown-space" is used only when `spaceId` is missing; a present value is shown whatever it is |
| Exporter.FolderRootExactly | parser.py:100-107 | the folder part is "folder-root" exactly when the parent id is falsy or is shown as "root" |
| Exporter.EscapeHasNoMarkup | parser.py:117 | an escaped title holds none of `< > " '` |
| Exporter.UnescapeEscape | parser.py:117 | escaping loses nothing: unescaping the escaped title gives it back |
| Exporter.TitleSafe | parser.py:117 | a falsy title gives ""; a string is escaped; any other truthy title raises an AttributeError |
| Exporter.InfixOfPieces | parser.py:123-233 | any three consecutive template pieces appear together in the filled-in document |
| Exporter.DocumentTitle | parser.py:127 | the document holds `<title>` + title + `</title>` |
| Exporter.DocumentHeading | parser.py:212 | the document holds `<h1>` + title + `</h1>` |
| Exporter.DocumentFolder | parser.py:216 | the document's Folder field holds the folder text |
| Exporter.DocumentCard | parser.py:222-224 | the document's card holds the body |
| Exporter.BuildHtmlDoc | parser.py:113-233 | fails exactly on a truthy title that is not a string, with an AttributeError; otherwise it is the page template filled with the escaped title and the page's fields |
| Exporter.BuildHtmlDocShows | parser.py:117-223 | a built document shows the escaped title in `<title>` and `<h1>`, the parent id or "-" as the folder, and the body verbatim inside the card |
| Exporter.PageNotDict | parser.py:248 | a page that is not a dict raises an AttributeError and writes nothing |
| Exporter.PageBadBody | parser.py:250-254 | a body chain that reaches a non-dict raises before the id is checked, and nothing is written |
| Exporter.PageNoId | parser.py:256-258 | a page with a falsy id writes nothing and raises nothing |
| Exporter.PageNoBody | parser.py:261-274 | a page with an id and an empty body writes only its `{id}.json` |
| Exporter.PageBadTitle | parser.py:264-277 | a page whose title cannot be escaped writes its `{id}.json` and then raises |
| Exporter.PageWithDocument | parser.py:261-280 | a page with an id, a body and a usable title writes `{id}.json` and then `{id}.html` in its directory |
| Exporter.PageCounts | parser.py:256-280 | one page writes no more documents than metadata files, and one metadata file exactly when it has a truthy id, unless it raises first |
| Exporter.ExportCounts | parser.py:244-280 | `html_count <= json_count`, and a completed export writes one metadata file per page with a truthy id |
| Exporter.PageUnderRoot | parser.py:261-278 | a page with plain names (an id that does not start with "/" and no `..` part in its id, space id or parent id) writes only inside the output root |
| Exporter.PageWithIdUnderRoot | parser.py:261-278 | the same, for a page with a body and a truthy id |
| Exporter.PageWritesAre | parser.py:261-278 | a page with a body and a truthy id writes nothing but `{id}.json` and `{id}.html` in its directory |
| Exporter.FilePathInside | parser.py:265-276 | `{id}.json` and `{id}.html` in the directory of a page with plain names lie inside the output root |
| Exporter.WritesUnderRoot | parser.py:247-280 | an export whose pages all have plain names writes only inside the output root |
| Exporter.ErrorSticks | parser.py:247 | once a page has raised, later pages change nothing |
| Exporter.WritePage | parser.py:248-280 | one loop iteration issues exactly the writes of `ExportPage`, in order, and adds its metadata and document counts to the counters |
| Exporter.ExportPages | parser.py:236-280 | the loop's writes and error are `ExportAll`, and the two counters count the metadata and document writes |
| TitleSanitiser.Safe | parsing_tests.py:25 | the replacement maps each forbidden character to "_" and leaves every other character alone |
| TitleSanitiser.Strip | parsing_tests.py:24 | `strip()` never lengthens a title; the ends of the result are not whitespace; it is empty exactly for an all-whitespace title; a title without whitespace at its ends is kept |
| TitleSanitiser.StripCutsEnds | parsing_tests.py:24 | `strip()` removes whitespace at the two ends and nothing else: the title is a run of whitespace, the stripped title, and another run of whitespace |
| TitleSanitiser.ReplaceForbidden | parsing_tests.py:25 | the same length, with each character replaced by its safe form |
| TitleSanitiser.CollapseShape | parsing_tests.py:26 | the collapse is never longer, leaves no whitespace, and brings in no forbidden character |
| TitleSanitiser.CollapseAppend | parsing_tests.py:26 | the collapse of `a + b` is the collapse of `a` followed by that of `b`, where `b` is scanned as if inside a run exactly when `a` ends in whitespace |
| TitleSanitiser.CollapseRun | parsing_tests.py:26 | a whole run of whitespace becomes a single "_" |
| TitleSanitiser.CollapseSplit | parsing_tests.py:26 | a run of whitespace between two parts that do not end or start with whitespace becomes exactly one "_" between their collapsed forms |
| TitleSanitiser.SanitisedIsClean | parsing_tests.py:24-26 | a sanitised title holds no forbidden character and no whitespace |
| TitleSanitiser.SanitisedNoLonger | parsing_tests.py:24-26 | a sanitised title is never longer than the original |
| TitleSanitiser.CollapseClean | parsing_tests.py:26 | a string without whitespace comes out of the collapse unchanged |
| TitleSanitiser.ReplaceClean | parsing_tests.py:25 | a string without forbidden characters comes out of the replacement unchanged |
| TitleSanitiser.SanitiseIdempotent | parsing_tests.py:24-26 | sanitising a sanitised title changes nothing |
| TitleSanitiser.CollapseFirst | parsing_tests.py:26 | the collapse keeps a first character that is not whitespace |
| TitleSanitiser.CollapseLast | parsing_tests.py:26 | the collapse keeps a last character that is not whitespace |
| TitleSanitiser.SanitisedEnds | parsing_tests.py:24-26 | a title sanitises to "" exactly when it is all whitespace; otherwise the ends are the stripped title's ends made safe, so no "_" at an end comes from whitespace |
| TitleSanitiser.TitleOf | parsing_tests.py:12-15 | a page gives its title, "" when it has none, exactly when it is a dict whose body chain reaches dicts; otherwise an AttributeError |
| TitleSanitiser.MissingTitleIsEmpty | parsing_tests.py:12 | a page without a title contributes "" |
| TitleSanitiser.ExtractTitles | parsing_tests.py:11-16 | the first loop gives `Titles` of the loaded list, one title per page in order, or the error of iterating it |
| TitleSanitiser.SanitiseTitles | parsing_tests.py:23-27 | the second loop gives `SanitisedAll`: every title sanitised in order, the same length, or an AttributeError when a title is not a string |
| SpaceLookup.IndexOf | tests.py:27 | a key's position in a dict is the first entry with an equal key, and it is absent exactly when no entry has one |
| SpaceLookup.Assign | tests.py:27 | `result[id] = name` keeps keys distinct and in place, appends a new key and updates an existing one in its place |
| SpaceLookup.AssignLookup | tests.py:27 | after the assignment an equal key finds the new name and any other key finds what it did before |
| SpaceLookup.SameKeysSameIndex | tests.py:27 | dicts with the same keys in the same places find every key in the same place |
| SpaceLookup.AppendIndex | tests.py:27 | a key added at the end is found there unless an equal key is already present |
| SpaceLookup.SpaceInfo | tests.py:26-27 | the dict is built exactly when every item has a name and a hashable id, and its keys are distinct |
| SpaceLookup.SpaceInfoKeepsLastName | tests.py:26-27 | looking up an id gives the name of the last item with that id, and nothing for an id no item has |
| SpaceLookup.GetSpaceInfo | tests.py:23-28 | the loop gives `SpaceInfo` of the listed results, or the error of subscripting or iterating the listing |
| SpaceLookup.FirstNamed | tests.py:33-35 | the first entry in insertion order whose name is the given one, absent exactly when no entry has it |
| SpaceLookup.GetIdByName | tests.py:31-37 | returns the id of the first entry with that name, or None when there is none |
| SpaceLookup.FoundIdHasName | tests.py:33-35 | in the dict, the id found for a name maps back to that name |
| SpaceLookup.SpaceIdsForName | tests.py:40-46 | raises the ValueError with the source's message exactly when the lookup gives None; otherwise gives `[str(space_id)]` |

## Left out

- HTTP itself is not modelled: the session, Basic Auth, headers and
  timeouts. Each response is one entry of the script of responses. The
  loop cannot exceed the script, so a server that never stops paginating
  shows up as a transport error at the end of the script.
- JSON decoding (`resp.json()`, `json.load`) is not modelled. A response
  body is a decoded value or "not JSON".
- No serialisation is modelled.
  - The two `write_text` calls of parser.py (parser.py:265-266 and 279)
    are the writes of `Exporter`'s log. The metadata file holds the page as
    `Meta(page)` in place of the text of `json.dumps`.
  - The final `json.dump` of main.py (main.py:109-110) is the list that
    `MainScript.Backup` returns.
  - The `json.dump` in tests.py of what the foreign call returns is left
    out.
- Logging, `print` and the `OUTPUT_ROOT.resolve()` report are left out,
  because they are effects with no bearing on the results.
- Writes never fail in this model, and `mkdir` is not modelled. The
  source creates only the page's own directory (parser.py:109). An id with
  a "/" in it, such as "a/b", names a file in a sub-directory that was never
  created. There Python's `write_text` raises `FileNotFoundError`, where
  `Exporter.ExportPage` writes the file and raises nothing. The same holds
  for any other failure of the file system.
- Loading `.env` with dotenv is reduced to a map lookup of the three keys.
  A key present without a value (which dotenv gives as `None`) is not
  distinguished.
- The atlassian `Confluence` calls and `input()` in `tests.py` are foreign
  calls and I/O. `init_session` is not modelled. `get_all_pages_by_space_id`
  is modelled up to the argument it would pass. `get_space_info` takes the
  listing as a parameter.
- The CSS of the document template is not spelled out: it is a `style`
  parameter. The rest of the template text is written out.
- `Url.UrlJoin`: the model splits a reference with the rule of Appendix B
  of RFC 3986, taking a scheme only when it matches the grammar of
  section 3.1 (as Python's `urlsplit` also checks), and resolves it as
  section 5 of RFC 3986 does. Python's `urljoin` differs in corner cases
  that continuation links do not reach:
  - it strips leading C0 control characters and spaces from both URLs,
    and removes every tab, CR and LF;
  - it skips dot-segment removal for a reference with its own authority;
  - it treats a reference with the base's scheme as relative;
  - it resolves only for schemes listed in `uses_relative`;
  - it lower-cases the scheme;
  - it drops an empty query or fragment ("?" or "#" with nothing after it);
  - it drops empty segments from the middle of a merged path;
  - it writes "/" for a resolved path that comes out empty. The model
    keeps the empty path, so `UrlJoin("x", "..")` is "" where Python gives
    "/", and under `while url:` the model stops where Python would request
    "/".
- Decoded numbers are integers in this model: `Json` has no float, so a
  float in a response or a page file is not modelled.
- `JsonValue.Repr`: `repr()` of a string inside a list or dict is written
  with single quotes and no escaping. A decoded object with a repeated key
  is printed with every member. Python's dict holds one entry per key,
  with the last value in the first key's position: a `spaceId` of
  `{"a": 1, "a": 2}` gives "space-{'a': 1, 'a': 2}" here and
  "space-{'a': 2}" in Python.
  `str()` of a container as a directory or file name is modelled only to
  that extent.
- `SpaceLookup.SpaceIdsForName`: an id that is itself `None` is, as in the
  source, indistinguishable from a missing name and raises the same
  ValueError.
- The commented-out code at the top of `parser.py` and `main.py` and the
  whole of `utils.py` are not part of this model.
