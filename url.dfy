/**
 * Reference resolution of section 5 of RFC 3986, which Python's `urljoin`
 * performs when the fetch loops turn a continuation link into the next
 * request URL. A URI reference is split into its five components with the
 * rule of Appendix B, resolved against a base with the algorithm of section
 * 5.2.2 (using the merge of section 5.2.3 and the dot-segment removal of
 * section 5.2.4) and recomposed as section 5.3 describes.
 */
module Url {
  import opened Wrappers

  datatype Parts = Parts(
    scheme: Option<string>,
    authority: Option<string>,
    path: string,
    query: Option<string>,
    fragment: Option<string>)

  predicate HasPrefix(s: string, p: string) {
    |p| <= |s| && s[..|p|] == p
  }

  /** The index of the first character of `s` that is in `stops`, or `|s|`. */
  function FindAny(s: string, stops: set<char>): (k: nat)
    ensures k <= |s|
    ensures forall i :: 0 <= i < k ==> s[i] !in stops
    ensures k < |s| ==> s[k] in stops
  {
    if s == [] then 0
    else if s[0] in stops then 0
    else 1 + FindAny(s[1..], stops)
  }

  // ---------------------------------------------------------------------
  // Appendix B: splitting a reference into components

  /** A character the scheme grammar of section 3.1 allows after the first. */
  predicate SchemeChar(c: char) {
    'a' <= c <= 'z' || 'A' <= c <= 'Z' || '0' <= c <= '9' || c == '+' || c == '-' || c == '.'
  }

  /** `scheme = ALPHA *( ALPHA / DIGIT / "+" / "-" / "." )`. */
  predicate IsScheme(t: string) {
    t != [] && ('a' <= t[0] <= 'z' || 'A' <= t[0] <= 'Z') &&
    forall i :: 0 <= i < |t| ==> SchemeChar(t[i])
  }

  /**
   * `scheme ":"` at the start: the characters up to the first of `:/?#`,
   * when that is a `:` and they form a scheme. A reference whose text
   * before its first `:` is not a scheme has none and is a relative path.
   */
  function SplitScheme(s: string): (Option<string>, string)
  {
    var k := FindAny(s, {':', '/', '?', '#'});
    if 0 < k < |s| && s[k] == ':' && IsScheme(s[..k]) then (Some(s[..k]), s[k + 1..]) else (None, s)
  }

  /** `"//" authority`, the authority running up to the next `/`, `?` or `#`. */
  function SplitAuthority(s: string): (Option<string>, string)
  {
    if HasPrefix(s, "//") then
      var rest := s[2..];
      var k := FindAny(rest, {'/', '?', '#'});
      (Some(rest[..k]), rest[k..])
    else (None, s)
  }

  /** The path runs up to the first `?` or `#`. */
  function SplitPath(s: string): (string, string)
  {
    var k := FindAny(s, {'?', '#'});
    (s[..k], s[k..])
  }

  /** `"?" query`, the query running up to the first `#`. */
  function SplitQuery(s: string): (Option<string>, string)
  {
    if s != [] && s[0] == '?' then
      var rest := s[1..];
      var k := FindAny(rest, {'#'});
      (Some(rest[..k]), rest[k..])
    else (None, s)
  }

  /** `"#" fragment`, the rest of the reference. */
  function SplitFragment(s: string): Option<string>
  {
    if s != [] && s[0] == '#' then Some(s[1..]) else None
  }

  function Parse(s: string): Parts
  {
    var scheme := SplitScheme(s);
    var authority := SplitAuthority(scheme.1);
    var path := SplitPath(authority.1);
    var query := SplitQuery(path.1);
    Parts(scheme.0, authority.0, path.0, query.0, SplitFragment(query.1))
  }

  // ---------------------------------------------------------------------
  // Section 5.3: component recomposition

  function SchemeText(p: Parts): string {
    if p.scheme.Some? then p.scheme.value + ":" else ""
  }

  function AuthorityText(p: Parts): string {
    if p.authority.Some? then "//" + p.authority.value else ""
  }

  function QueryText(p: Parts): string {
    if p.query.Some? then "?" + p.query.value else ""
  }

  function FragmentText(p: Parts): string {
    if p.fragment.Some? then "#" + p.fragment.value else ""
  }

  function Recompose(p: Parts): string
  {
    SchemeText(p) + AuthorityText(p) + p.path + QueryText(p) + FragmentText(p)
  }

  /** The scheme and authority of a URI: everything the path does not replace. */
  function Origin(p: Parts): string
  {
    SchemeText(p) + AuthorityText(p)
  }

  // ---------------------------------------------------------------------
  // Section 5.2.4: removing dot segments

  /** Everything in `s` before its last `/`, or "" when there is none. */
  function BeforeLastSlash(s: string): (r: string)
    ensures |r| <= |s|
    decreases |s|
  {
    if s == [] then []
    else if s[|s| - 1] == '/' then s[..|s| - 1]
    else BeforeLastSlash(s[..|s| - 1])
  }

  /**
   * The length of the first segment of a non-empty buffer, including its
   * leading `/` if it has one, up to but not including the next `/`.
   */
  function FirstSegmentLength(s: string): (k: nat)
    requires s != []
    ensures 0 < k <= |s|
    ensures k < |s| ==> s[k] == '/'
    ensures forall i :: 0 < i < k ==> s[i] != '/'
    ensures s[0] != '/' ==> forall i :: 0 <= i < k ==> s[i] != '/'
  {
    if s[0] == '/' then 1 + FindAny(s[1..], {'/'}) else FindAny(s, {'/'})
  }

  /** The loop of section 5.2.4: `input` is the input buffer, `output` the output buffer. */
  function RemoveDots(input: string, output: string): string
    decreases |input|
  {
    if input == [] then output
    else if HasPrefix(input, "../") then RemoveDots(input[3..], output)
    else if HasPrefix(input, "./") then RemoveDots(input[2..], output)
    else if HasPrefix(input, "/./") then RemoveDots(input[2..], output)
    else if input == "/." then RemoveDots("/", output)
    else if HasPrefix(input, "/../") then RemoveDots(input[3..], BeforeLastSlash(output))
    else if input == "/.." then RemoveDots("/", BeforeLastSlash(output))
    else if input == "." || input == ".." then output
    else
      var k := FirstSegmentLength(input);
      RemoveDots(input[k..], output + input[..k])
  }

  function RemoveDotSegments(path: string): string
  {
    RemoveDots(path, "")
  }

  /** A complete path segment "." or ".." starts at index `i` of `p`. */
  predicate DotSegmentAt(p: string, i: nat)
    requires i < |p|
  {
    && p[i] == '.'
    && (i == 0 || p[i - 1] == '/')
    && (i + 1 == |p| || p[i + 1] == '/' ||
        (p[i + 1] == '.' && (i + 2 == |p| || p[i + 2] == '/')))
  }

  predicate NoDotSegments(p: string) {
    forall i :: 0 <= i < |p| ==> !DotSegmentAt(p, i)
  }

  // ---------------------------------------------------------------------
  // Sections 5.2.2 and 5.2.3: transforming references

  /** `s` up to and including its last `/`, or "" when there is none. */
  function ThroughLastSlash(s: string): (r: string)
    ensures |r| <= |s|
    decreases |s|
  {
    if s == [] then []
    else if s[|s| - 1] == '/' then s
    else ThroughLastSlash(s[..|s| - 1])
  }

  /** The directory of the base a relative path is appended to (section 5.2.3). */
  function MergeDirectory(base: Parts): string
  {
    if base.authority.Some? && base.path == "" then "/" else ThroughLastSlash(base.path)
  }

  /** Section 5.2.3: a relative-path reference replaces the last segment of the base path. */
  function Merge(base: Parts, refPath: string): string
  {
    MergeDirectory(base) + refPath
  }

  /** Section 5.2.2, in its strict form. */
  function Resolve(base: Parts, ref: Parts): Parts
  {
    if ref.scheme.Some? then
      Parts(ref.scheme, ref.authority, RemoveDotSegments(ref.path), ref.query, ref.fragment)
    else if ref.authority.Some? then
      Parts(base.scheme, ref.authority, RemoveDotSegments(ref.path), ref.query, ref.fragment)
    else if ref.path == "" then
      Parts(base.scheme, base.authority, base.path,
            if ref.query.Some? then ref.query else base.query, ref.fragment)
    else if ref.path[0] == '/' then
      Parts(base.scheme, base.authority, RemoveDotSegments(ref.path), ref.query, ref.fragment)
    else
      Parts(base.scheme, base.authority, RemoveDotSegments(Merge(base, ref.path)),
            ref.query, ref.fragment)
  }

  /**
   * `urljoin(base, url)`: an empty base gives the reference and an empty
   * reference gives the base; otherwise the reference is resolved.
   */
  function UrlJoin(base: string, ref: string): string
  {
    if base == "" then ref
    else if ref == "" then base
    else Recompose(Resolve(Parse(base), Parse(ref)))
  }

  // ---------------------------------------------------------------------
  // Properties

  lemma SchemeRoundTrip(s: string)
    ensures var (scheme, rest) := SplitScheme(s);
      (if scheme.Some? then scheme.value + ":" else "") + rest == s
  {
    var k := FindAny(s, {':', '/', '?', '#'});
    if 0 < k < |s| && s[k] == ':' && IsScheme(s[..k]) {
      assert s == s[..k] + ":" + s[k + 1..];
    }
  }

  /** A split-off scheme follows the scheme grammar; any other text before a `:` is no scheme. */
  lemma SchemeFollowsGrammar(s: string)
    ensures SplitScheme(s).0.Some? ==> IsScheme(SplitScheme(s).0.value)
    ensures var k := FindAny(s, {':', '/', '?', '#'});
      0 < k < |s| && s[k] == ':' && !IsScheme(s[..k]) ==> SplitScheme(s) == (None, s)
  {
  }

  /** "a_b:c" has no scheme, since "_" is not a scheme character, and so it is a relative path. */
  lemma UnderscoreIsNoScheme()
    ensures Parse("a_b:c").scheme.None?
  {
    assert !SchemeChar("a_b:c"[1]);
  }

  lemma AuthorityRoundTrip(s: string)
    ensures var (authority, rest) := SplitAuthority(s);
      (if authority.Some? then "//" + authority.value else "") + rest == s
  {
    if HasPrefix(s, "//") {
      var rest := s[2..];
      var k := FindAny(rest, {'/', '?', '#'});
      assert s == "//" + rest[..k] + rest[k..];
    }
  }

  lemma PathRoundTrip(s: string)
    ensures SplitPath(s).0 + SplitPath(s).1 == s
    ensures var rest := SplitPath(s).1; rest == [] || rest[0] == '?' || rest[0] == '#'
  {
    var k := FindAny(s, {'?', '#'});
    assert s == s[..k] + s[k..];
  }

  lemma QueryRoundTrip(s: string)
    requires s == [] || s[0] == '?' || s[0] == '#'
    ensures var (query, rest) := SplitQuery(s);
      (if query.Some? then "?" + query.value else "") + rest == s &&
      (rest == [] || rest[0] == '#')
  {
    if s != [] && s[0] == '?' {
      var rest := s[1..];
      var k := FindAny(rest, {'#'});
      assert s == "?" + rest[..k] + rest[k..];
    }
  }

  lemma FragmentRoundTrip(s: string)
    requires s == [] || s[0] == '#'
    ensures (if SplitFragment(s).Some? then "#" + SplitFragment(s).value else "") == s
  {
    if s != [] {
      assert s == [s[0]] + s[1..];
    }
  }

  lemma ConcatChain(s: string, x1: string, x2: string, x3: string, x4: string,
                    a1: string, a2: string, a3: string, a4: string)
    requires x1 + a1 == s && x2 + a2 == a1 && x3 + a3 == a2 && x4 + a4 == a3
    ensures x1 + x2 + x3 + x4 + a4 == s
  {
  }

  /** Splitting a reference into its components and recomposing them gives it back. */
  lemma ParseRecompose(s: string)
    ensures Recompose(Parse(s)) == s
  {
    var p := Parse(s);
    var a1 := SplitScheme(s).1;
    var a2 := SplitAuthority(a1).1;
    var a3 := SplitPath(a2).1;
    var a4 := SplitQuery(a3).1;
    SchemeRoundTrip(s);
    AuthorityRoundTrip(a1);
    PathRoundTrip(a2);
    QueryRoundTrip(a3);
    FragmentRoundTrip(a4);
    assert FragmentText(p) == a4;
    var st, at, qt := SchemeText(p), AuthorityText(p), QueryText(p);
    assert st + a1 == s;
    assert at + a2 == a1;
    assert p.path + a3 == a2;
    assert qt + a4 == a3;
    ConcatChain(s, st, at, p.path, qt, a1, a2, a3, a4);
  }

  /** In a path without dot segments, none of the rewriting rules A to D of section 5.2.4 applies. */
  lemma NoRewriteRuleApplies(input: string)
    requires input != [] && NoDotSegments(input)
    ensures !HasPrefix(input, "../") && !HasPrefix(input, "./")
    ensures !HasPrefix(input, "/./") && input != "/."
    ensures !HasPrefix(input, "/../") && input != "/.."
    ensures input != "." && input != ".."
  {
    assert !DotSegmentAt(input, 0);
    if |input| >= 2 {
      assert !DotSegmentAt(input, 1);
      assert input[..2][0] == input[0] && input[..2][1] == input[1];
    }
    if |input| >= 3 {
      assert input[..3][0] == input[0] && input[..3][1] == input[1] && input[..3][2] == input[2];
    }
    if |input| >= 4 {
      assert input[..4][0] == input[0] && input[..4][1] == input[1];
      assert input[..4][2] == input[2] && input[..4][3] == input[3];
    }
  }

  /** What remains after moving the first segment still has no dot segments. */
  lemma RestHasNoDotSegments(input: string)
    requires input != [] && NoDotSegments(input)
    ensures NoDotSegments(input[FirstSegmentLength(input)..])
  {
    var k := FirstSegmentLength(input);
    var rest := input[k..];
    forall i | 0 <= i < |rest|
      ensures !DotSegmentAt(rest, i)
    {
      assert !DotSegmentAt(input, i + k);
      if i == 0 {
        assert rest[0] == '/';
      }
    }
  }

  /** Dot-segment removal leaves a path without "." or ".." segments as it is. */
  lemma {:induction false} RemoveDotsKeepsPlainPath(input: string, output: string)
    requires NoDotSegments(input)
    ensures RemoveDots(input, output) == output + input
    decreases |input|
  {
    if input != [] {
      NoRewriteRuleApplies(input);
      RestHasNoDotSegments(input);
      var k := FirstSegmentLength(input);
      RemoveDotsKeepsPlainPath(input[k..], output + input[..k]);
      assert output + input[..k] + input[k..] == output + input;
    }
  }

  /**
   * A reference with a scheme is a complete URI: unless its path has dot
   * segments to remove, it is used exactly as given, whatever the base.
   */
  lemma AbsoluteReferenceVerbatim(base: string, ref: string)
    requires Parse(ref).scheme.Some?
    requires NoDotSegments(Parse(ref).path)
    ensures UrlJoin(base, ref) == ref
  {
    ParseRecompose(ref);
    RemoveDotsKeepsPlainPath(Parse(ref).path, "");
    assert "" + Parse(ref).path == Parse(ref).path;
  }

  /** Without a scheme and an authority, a reference is its path, query and fragment. */
  lemma RelativeReferenceText(ref: string)
    requires Parse(ref).scheme.None? && Parse(ref).authority.None?
    ensures ref == Parse(ref).path + QueryText(Parse(ref)) + FragmentText(Parse(ref))
  {
    ParseRecompose(ref);
  }

  /** How a reference starting with a single "/" splits. */
  lemma ParsePathAbsolute(ref: string)
    requires HasPrefix(ref, "/") && !HasPrefix(ref, "//")
    ensures Parse(ref).scheme.None? && Parse(ref).authority.None?
    ensures Parse(ref).path != [] && Parse(ref).path[0] == '/'
  {
    assert ref[..1][0] == ref[0];
    assert FindAny(ref, {':', '/', '?', '#'}) == 0;
    assert SplitScheme(ref) == (None, ref);
    assert SplitAuthority(ref) == (None, ref);
    assert FindAny(ref, {'?', '#'}) > 0;
  }

  /** How a reference starting with a character other than "/", "?" and "#" splits. */
  lemma ParseRelativePath(ref: string)
    requires ref != [] && ref[0] != '/' && ref[0] != '?' && ref[0] != '#'
    requires Parse(ref).scheme.None?
    ensures Parse(ref).authority.None?
    ensures Parse(ref).path != [] && Parse(ref).path[0] == ref[0]
  {
    assert SplitScheme(ref) == (None, ref);
    assert !HasPrefix(ref, "//") by {
      if |ref| >= 2 {
        assert ref[..2][0] == ref[0];
      }
    }
    assert SplitAuthority(ref) == (None, ref);
    assert FindAny(ref, {'?', '#'}) > 0;
  }

  /** Recomposing a target that takes scheme and authority from the base. */
  lemma RecomposeWithBaseOrigin(b: Parts, r: Parts, path: string)
    ensures Recompose(Parts(b.scheme, b.authority, path, r.query, r.fragment))
         == Origin(b) + (path + QueryText(r) + FragmentText(r))
  {
  }

  /**
   * A path-absolute reference ("/..." but not "//...") keeps the scheme and
   * authority of the base and replaces the base's whole path, query and
   * fragment: nothing of a base path such as "/wiki" survives.
   */
  lemma PathAbsoluteReplacesBasePath(base: string, ref: string)
    requires base != ""
    requires HasPrefix(ref, "/") && !HasPrefix(ref, "//")
    requires NoDotSegments(Parse(ref).path)
    ensures UrlJoin(base, ref) == Origin(Parse(base)) + ref
  {
    var b, r := Parse(base), Parse(ref);
    ParsePathAbsolute(ref);
    RemoveDotsKeepsPlainPath(r.path, "");
    assert RemoveDotSegments(r.path) == r.path;
    assert Resolve(b, r) == Parts(b.scheme, b.authority, r.path, r.query, r.fragment);
    RecomposeWithBaseOrigin(b, r, r.path);
    RelativeReferenceText(ref);
  }

  /**
   * A relative-path reference is appended to the base path up to and
   * including its last "/" (section 5.2.3), keeping the scheme and authority.
   */
  lemma RelativePathReplacesLastSegment(base: string, ref: string)
    requires base != "" && ref != ""
    requires Parse(ref).scheme.None? && ref[0] != '/' && ref[0] != '?' && ref[0] != '#'
    requires NoDotSegments(Merge(Parse(base), Parse(ref).path))
    ensures UrlJoin(base, ref) == Origin(Parse(base)) + MergeDirectory(Parse(base)) + ref
  {
    ParseRelativePath(ref);
    ResolveRelativePath(Parse(base), Parse(ref));
    RelativeReferenceText(ref);
  }

  lemma ResolveRelativePath(b: Parts, r: Parts)
    requires r.scheme.None? && r.authority.None? && r.path != [] && r.path[0] != '/'
    requires NoDotSegments(Merge(b, r.path))
    ensures Recompose(Resolve(b, r))
         == Origin(b) + MergeDirectory(b) + (r.path + QueryText(r) + FragmentText(r))
  {
    var merged := Merge(b, r.path);
    assert RemoveDotSegments(merged) == merged by {
      RemoveDotsKeepsPlainPath(merged, "");
    }
    var t := Parts(b.scheme, b.authority, merged, r.query, r.fragment);
    assert Resolve(b, r) == t;
    var o, d, q, f := Origin(b), MergeDirectory(b), QueryText(r), FragmentText(r);
    assert Recompose(t) == o + (merged + q + f) by {
      RecomposeWithBaseOrigin(b, r, merged);
    }
    RegroupFive(o, d, r.path, q, f);
  }

  lemma RegroupFive(o: string, d: string, p: string, q: string, f: string)
    ensures o + (((d + p) + q) + f) == o + d + ((p + q) + f)
  {
  }

  /** A path without any "." character has no dot segments. */
  lemma NoDotNoDotSegments(p: string)
    requires '.' !in p
    ensures NoDotSegments(p)
  {
    forall i | 0 <= i < |p|
      ensures !DotSegmentAt(p, i)
    {
      assert p[i] in p;
    }
  }

  /** `FindAny` is determined by its contract. */
  lemma FindAnyAt(s: string, stops: set<char>, k: nat)
    requires k <= |s| && (k < |s| ==> s[k] in stops)
    requires forall i :: 0 <= i < k ==> s[i] !in stops
    ensures FindAny(s, stops) == k
  {
  }

  lemma SchemeSplitAt(s: string, scheme: string, rest: string)
    requires s == scheme + ":" + rest
    requires IsScheme(scheme)
    ensures SplitScheme(s) == (Some(scheme), rest)
  {
    forall i | 0 <= i < |scheme|
      ensures s[i] !in {':', '/', '?', '#'}
    {
      assert s[i] == scheme[i] && SchemeChar(scheme[i]);
    }
    FindAnyAt(s, {':', '/', '?', '#'}, |scheme|);
    assert s[..|scheme|] == scheme && s[|scheme| + 1..] == rest;
  }

  lemma AuthoritySplitAt(s: string, authority: string, rest: string)
    requires s == "//" + authority + rest
    requires '/' !in authority && '?' !in authority && '#' !in authority
    requires rest == [] || rest[0] == '/' || rest[0] == '?' || rest[0] == '#'
    ensures SplitAuthority(s) == (Some(authority), rest)
  {
    assert s[..2] == "//";
    var tail := s[2..];
    assert tail == authority + rest;
    forall i | 0 <= i < |authority|
      ensures tail[i] !in {'/', '?', '#'}
    {
      assert tail[i] == authority[i] && authority[i] in authority;
    }
    FindAnyAt(tail, {'/', '?', '#'}, |authority|);
    assert tail[..|authority|] == authority && tail[|authority|..] == rest;
  }

  lemma PathSplitAt(s: string, path: string, rest: string)
    requires s == path + rest && '?' !in path && '#' !in path
    requires rest == [] || rest[0] == '?' || rest[0] == '#'
    ensures SplitPath(s) == (path, rest)
  {
    forall i | 0 <= i < |path|
      ensures s[i] !in {'?', '#'}
    {
      assert s[i] == path[i] && path[i] in path;
    }
    FindAnyAt(s, {'?', '#'}, |path|);
    assert s[..|path|] == path && s[|path|..] == rest;
  }

  lemma QuerySplitAt(s: string, query: string)
    requires s == "?" + query && '#' !in query
    ensures SplitQuery(s) == (Some(query), "")
  {
    assert s[1..] == query;
    forall i | 0 <= i < |query|
      ensures query[i] !in {'#'}
    {
      assert query[i] in query;
    }
    FindAnyAt(query, {'#'}, |query|);
    assert query[..|query|] == query && query[|query|..] == [];
  }

  /** How an absolute URI `scheme "://" authority path` splits. */
  lemma ParseAbsoluteUri(scheme: string, authority: string, path: string)
    requires IsScheme(scheme)
    requires '/' !in authority && '?' !in authority && '#' !in authority
    requires (path == [] || path[0] == '/') && '?' !in path && '#' !in path
    ensures Parse(scheme + "://" + authority + path) == Parts(Some(scheme), Some(authority), path, None, None)
  {
    var s := scheme + "://" + authority + path;
    SchemeSplitAt(s, scheme, "//" + authority + path);
    AuthoritySplitAt("//" + authority + path, authority, path);
    PathSplitAt(path, path, "");
    assert SplitQuery("") == (None, "");
  }

  /** How a path-absolute reference `path "?" query` splits. */
  lemma ParsePathAndQuery(path: string, query: string)
    requires path != [] && path[0] == '/' && (|path| < 2 || path[1] != '/')
    requires '?' !in path && '#' !in path && '#' !in query
    ensures Parse(path + "?" + query) == Parts(None, None, path, Some(query), None)
  {
    var s := path + "?" + query;
    assert s[0] == '/';
    FindAnyAt(s, {':', '/', '?', '#'}, 0);
    assert !HasPrefix(s, "//") by {
      if |path| >= 2 {
        assert s[..2][1] == path[1];
      } else {
        assert s[..2][1] == '?';
      }
    }
    PathSplitAt(s, path, "?" + query);
    QuerySplitAt("?" + query, query);
  }

  /**
   * A path-absolute reference with a query, against an absolute base URI:
   * the result has the base's scheme and authority and the reference's path
   * and query; the base path is gone.
   */
  lemma PathAbsoluteAgainstAbsoluteBase(scheme: string, authority: string, basePath: string,
                                        path: string, query: string)
    requires IsScheme(scheme)
    requires '/' !in authority && '?' !in authority && '#' !in authority
    requires (basePath == [] || basePath[0] == '/') && '?' !in basePath && '#' !in basePath
    requires path != [] && path[0] == '/' && (|path| < 2 || path[1] != '/')
    requires '?' !in path && '#' !in path && '#' !in query && NoDotSegments(path)
    ensures UrlJoin(scheme + "://" + authority + basePath, path + "?" + query)
         == scheme + "://" + authority + path + "?" + query
  {
    OriginOfAbsoluteUri(scheme, authority, basePath);
    PathAndQueryReference(path, query);
    PathAbsoluteReplacesBasePath(scheme + "://" + authority + basePath, path + "?" + query);
    RegroupThree(scheme + "://" + authority, path, "?", query);
  }

  lemma OriginOfAbsoluteUri(scheme: string, authority: string, basePath: string)
    requires IsScheme(scheme)
    requires '/' !in authority && '?' !in authority && '#' !in authority
    requires (basePath == [] || basePath[0] == '/') && '?' !in basePath && '#' !in basePath
    ensures Origin(Parse(scheme + "://" + authority + basePath)) == scheme + "://" + authority
  {
    ParseAbsoluteUri(scheme, authority, basePath);
    OriginOfParts(scheme, authority, basePath);
  }

  lemma OriginOfParts(scheme: string, authority: string, path: string)
    ensures Origin(Parts(Some(scheme), Some(authority), path, None, None)) == scheme + "://" + authority
  {
    assert scheme + ":" + ("//" + authority) == scheme + "://" + authority;
  }

  lemma PathAndQueryReference(path: string, query: string)
    requires path != [] && path[0] == '/' && (|path| < 2 || path[1] != '/')
    requires '?' !in path && '#' !in path && '#' !in query && NoDotSegments(path)
    ensures NoDotSegments(Parse(path + "?" + query).path)
    ensures HasPrefix(path + "?" + query, "/") && !HasPrefix(path + "?" + query, "//")
  {
    var ref := path + "?" + query;
    ParsePathAndQuery(path, query);
    assert ref[..1] == "/";
    if |path| >= 2 {
      assert ref[..2][1] == path[1];
    } else {
      assert ref[..2][1] == '?';
    }
  }

  lemma RegroupThree(o: string, p: string, m: string, q: string)
    ensures o + (p + m + q) == o + p + m + q
  {
  }

  /**
   * The continuation link "/api/v2/spaces?cursor=abc" against the base
   * "https://example.com/wiki" resolves to a URL without "/wiki".
   */
  lemma PathAbsoluteExample(base: string, next: string)
    requires base == "https://example.com/wiki" && next == "/api/v2/spaces?cursor=abc"
    ensures UrlJoin(base, next) == "https://example.com" + next
  {
    var scheme, authority, basePath := "https", "example.com", "/wiki";
    var path, query := "/api/v2/spaces", "cursor=abc";
    assert base == scheme + "://" + authority + basePath;
    assert next == path + "?" + query;
    assert "https://example.com" == scheme + "://" + authority;
    NoDotNoDotSegments(path);
    PathAbsoluteAgainstAbsoluteBase(scheme, authority, basePath, path, query);
    RegroupThree(scheme + "://" + authority, path, "?", query);
  }
}
