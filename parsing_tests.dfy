/**
 * The title sanitiser of the parsing experiment: the title of every page
 * of a backup list, then each title stripped, with the characters a file
 * name cannot hold replaced by "_" and every run of whitespace collapsed
 * into one "_".
 */
module TitleSanitiser {
  import opened Wrappers
  import opened JsonValue

  // ---------------------------------------------------------------------
  // Characters

  /**
   * Python's whitespace (`str.isspace`, which is also what `\s` and
   * `str.strip` use on text).
   */
  predicate IsSpace(c: char) {
    c == ' ' || ('\t' <= c <= '\r') || ('\U{1c}' <= c <= '\U{1f}') ||
    c == '\U{85}' || c == '\U{a0}' || c == '\U{1680}' || ('\U{2000}' <= c <= '\U{200a}') ||
    c == '\U{2028}' || c == '\U{2029}' || c == '\U{202f}' || c == '\U{205f}' || c == '\U{3000}'
  }

  /** The characters of the class `[\/\\:\*\?"<>|]`. */
  predicate Forbidden(c: char) {
    c == '/' || c == '\\' || c == ':' || c == '*' || c == '?' || c == '"' || c == '<' || c == '>' || c == '|'
  }

  /** What the replacement makes of one character. */
  function Safe(c: char): (d: char)
    ensures !Forbidden(d)
    ensures !IsSpace(c) ==> !IsSpace(d)
    ensures Forbidden(c) ==> d == '_'
    ensures !Forbidden(c) ==> d == c
  {
    if Forbidden(c) then '_' else c
  }

  // ---------------------------------------------------------------------
  // The three steps

  /** `s` is nothing but whitespace. */
  predicate AllSpace(s: string) {
    forall k :: 0 <= k < |s| ==> IsSpace(s[k])
  }

  /** How many characters of whitespace `s` starts with. */
  function LeadingSpaces(s: string): (n: nat)
    ensures n <= |s|
    ensures forall k :: 0 <= k < n ==> IsSpace(s[k])
    ensures n < |s| ==> !IsSpace(s[n])
    decreases |s|
  {
    if s != [] && IsSpace(s[0]) then
      var n := LeadingSpaces(s[1..]);
      assert forall k :: 1 <= k < |s| ==> s[1..][k - 1] == s[k];
      1 + n
    else 0
  }

  /** How many characters of whitespace `s` ends with. */
  function TrailingSpaces(s: string): (n: nat)
    ensures n <= |s|
    ensures forall k :: |s| - n <= k < |s| ==> IsSpace(s[k])
    ensures n < |s| ==> !IsSpace(s[|s| - 1 - n])
    decreases |s|
  {
    if s != [] && IsSpace(s[|s| - 1]) then
      var n := TrailingSpaces(s[..|s| - 1]);
      assert forall k :: 0 <= k < |s| - 1 ==> s[..|s| - 1][k] == s[k];
      1 + n
    else 0
  }

  /** The leading spaces are determined by where the first other character is. */
  lemma {:induction false} LeadingSpacesAt(s: string, n: nat)
    requires n <= |s| && forall k :: 0 <= k < n ==> IsSpace(s[k])
    requires n < |s| ==> !IsSpace(s[n])
    ensures LeadingSpaces(s) == n
    decreases n
  {
    if n > 0 {
      LeadingSpacesAt(s[1..], n - 1);
    }
  }

  /**
   * `title.strip()`: the title with the whitespace at both its ends cut off
   * and nothing else changed. The result is empty exactly for an
   * all-whitespace title, and a title with no whitespace at its ends is left
   * as it is.
   */
  function Strip(s: string): (r: string)
    ensures |r| <= |s|
    ensures r != [] ==> !IsSpace(r[0]) && !IsSpace(r[|r| - 1])
    ensures r == [] <==> AllSpace(s)
    ensures s != [] && !IsSpace(s[0]) && !IsSpace(s[|s| - 1]) ==> r == s
  {
    var lead := LeadingSpaces(s);
    if lead == |s| then []
    else
      var trail := TrailingSpaces(s);
      assert !IsSpace(s[lead]);
      assert trail < |s| - lead;
      var r := s[lead..|s| - trail];
      assert r[0] == s[lead] && r[|r| - 1] == s[|s| - 1 - trail];
      r
  }

  /** What `strip()` removes is whitespace at the two ends of the title, and nothing else. */
  lemma StripCutsEnds(s: string)
    ensures exists a, b :: AllSpace(a) && AllSpace(b) && s == a + Strip(s) + b
  {
    var lead := LeadingSpaces(s);
    if lead == |s| {
      assert AllSpace(s) && AllSpace([]) && s == s + Strip(s) + [];
    } else {
      var trail := TrailingSpaces(s);
      assert !IsSpace(s[lead]);
      var j := |s| - trail;
      assert Strip(s) == s[lead..j];
      CutThree(s, lead, j);
      assert AllSpace(s[..lead]) && AllSpace(s[j..]) && s == s[..lead] + Strip(s) + s[j..];
    }
  }

  /** A string whose characters before `i` and from `j` on are whitespace is those two runs around `s[i..j]`. */
  lemma CutThree(s: string, i: nat, j: nat)
    requires i <= j <= |s|
    requires forall k :: 0 <= k < i ==> IsSpace(s[k])
    requires forall k :: j <= k < |s| ==> IsSpace(s[k])
    ensures AllSpace(s[..i]) && AllSpace(s[j..])
    ensures s == s[..i] + s[i..j] + s[j..]
  {
    assert forall k :: 0 <= k < i ==> s[..i][k] == s[k];
    assert forall k :: 0 <= k < |s| - j ==> s[j..][k] == s[j + k];
    assert s[..j] == s[..i] + s[i..j];
    assert s == s[..j] + s[j..];
  }

  /** `re.sub(r'[\/\\:\*\?"<>|]', "_", s)`. */
  function ReplaceForbidden(s: string): (r: string)
    ensures |r| == |s|
    ensures forall k :: 0 <= k < |s| ==> r[k] == Safe(s[k])
  {
    seq(|s|, k requires 0 <= k < |s| => Safe(s[k]))
  }

  /**
   * The scan behind `re.sub(r"\s+", "_", s)`, one character at a time:
   * `inRun` says whether the characters already scanned ended inside a run
   * of whitespace, whose "_" has then been written.
   */
  function CollapseFrom(s: string, inRun: bool): string
    decreases |s|
  {
    if s == [] then []
    else if IsSpace(s[0]) then (if inRun then "" else "_") + CollapseFrom(s[1..], true)
    else [s[0]] + CollapseFrom(s[1..], false)
  }

  /** `re.sub(r"\s+", "_", s)`: every maximal run of whitespace becomes one "_". */
  function CollapseWhitespace(s: string): string {
    CollapseFrom(s, false)
  }

  /** Whether a scan from `inRun` is inside a run of whitespace after `a`. */
  function RunAfter(a: string, inRun: bool): bool {
    if a == [] then inRun else IsSpace(a[|a| - 1])
  }

  /**
   * The collapse never lengthens a string, leaves no whitespace, and brings
   * in no forbidden character.
   */
  lemma {:induction false} CollapseShape(s: string, inRun: bool)
    ensures |CollapseFrom(s, inRun)| <= |s|
    ensures forall k :: 0 <= k < |CollapseFrom(s, inRun)| ==> !IsSpace(CollapseFrom(s, inRun)[k])
    ensures (forall k :: 0 <= k < |s| ==> !Forbidden(s[k])) ==>
      forall k :: 0 <= k < |CollapseFrom(s, inRun)| ==> !Forbidden(CollapseFrom(s, inRun)[k])
    decreases |s|
  {
    if s != [] {
      var r := CollapseFrom(s, inRun);
      var next := IsSpace(s[0]);
      CollapseShape(s[1..], next);
      var rt := CollapseFrom(s[1..], next);
      var head := if next then (if inRun then "" else "_") else [s[0]];
      assert r == head + rt;
      assert forall k :: |head| <= k < |r| ==> r[k] == rt[k - |head|];
      assert forall k :: 0 <= k < |s| - 1 ==> s[1..][k] == s[k + 1];
    }
  }

  /**
   * The collapse works piece by piece: the collapse of `a + b` is that of
   * `a` followed by that of `b`, scanned as if `a` came before it.
   */
  lemma {:induction false} CollapseAppend(a: string, b: string, inRun: bool)
    ensures CollapseFrom(a + b, inRun) == CollapseFrom(a, inRun) + CollapseFrom(b, RunAfter(a, inRun))
    decreases |a|
  {
    if a == [] {
      assert a + b == b;
    } else {
      var s := a + b;
      assert s[0] == a[0] && s[1..] == a[1..] + b;
      var next := IsSpace(a[0]);
      CollapseAppend(a[1..], b, next);
      RunAfterTail(a, inRun);
      var head := if next then (if inRun then "" else "_") else [a[0]];
      calc {
        CollapseFrom(s, inRun);
        head + CollapseFrom(a[1..] + b, next);
        head + (CollapseFrom(a[1..], next) + CollapseFrom(b, RunAfter(a, inRun)));
        (head + CollapseFrom(a[1..], next)) + CollapseFrom(b, RunAfter(a, inRun));
        CollapseFrom(a, inRun) + CollapseFrom(b, RunAfter(a, inRun));
      }
    }
  }

  lemma RunAfterTail(a: string, inRun: bool)
    requires a != []
    ensures RunAfter(a[1..], IsSpace(a[0])) == RunAfter(a, inRun)
  {
    if |a| > 1 {
      assert a[1..][|a| - 2] == a[|a| - 1];
    }
  }

  /** A run of whitespace is written as one "_", or as nothing inside a run already written. */
  lemma {:induction false} CollapseRun(w: string, inRun: bool)
    requires w != [] && AllSpace(w)
    ensures CollapseFrom(w, inRun) == if inRun then "" else "_"
    decreases |w|
  {
    if |w| > 1 {
      CollapseRun(w[1..], true);
    }
  }

  /** After a run, a part that does not start with whitespace is collapsed as on its own. */
  lemma RunEnded(b: string)
    requires b == [] || !IsSpace(b[0])
    ensures CollapseFrom(b, true) == CollapseWhitespace(b)
  {
  }

  /** A run of whitespace before a part that does not start with whitespace becomes one "_". */
  lemma RunThen(w: string, b: string)
    requires w != [] && AllSpace(w)
    requires b == [] || !IsSpace(b[0])
    ensures CollapseFrom(w + b, false) == "_" + CollapseWhitespace(b)
  {
    CollapseAppend(w, b, false);
    assert IsSpace(w[|w| - 1]);
    CollapseRun(w, false);
    RunEnded(b);
  }

  /**
   * A run of whitespace between two parts that do not end or start with
   * whitespace becomes one "_" between their collapsed forms.
   */
  lemma CollapseSplit(a: string, w: string, b: string)
    requires w != [] && AllSpace(w)
    requires a == [] || !IsSpace(a[|a| - 1])
    requires b == [] || !IsSpace(b[0])
    ensures CollapseWhitespace(a + w + b) == CollapseWhitespace(a) + "_" + CollapseWhitespace(b)
  {
    assert a + w + b == a + (w + b);
    CollapseAppend(a, w + b, false);
    assert !RunAfter(a, false);
    RunThen(w, b);
  }

  /** The loop body of the second loop for a title that is a string. */
  function Sanitise(title: string): string {
    CollapseWhitespace(ReplaceForbidden(Strip(title)))
  }

  // ---------------------------------------------------------------------
  // What a sanitised title is like

  /** A sanitised title holds neither a character a file name forbids nor whitespace. */
  lemma SanitisedIsClean(title: string)
    ensures forall k :: 0 <= k < |Sanitise(title)| ==> !Forbidden(Sanitise(title)[k]) && !IsSpace(Sanitise(title)[k])
  {
    CollapseShape(ReplaceForbidden(Strip(title)), false);
  }

  /** Sanitising never makes a title longer. */
  lemma SanitisedNoLonger(title: string)
    ensures |Sanitise(title)| <= |title|
  {
    CollapseShape(ReplaceForbidden(Strip(title)), false);
  }

  /** A string without whitespace is its own collapse. */
  lemma {:induction false} CollapseClean(s: string, inRun: bool)
    requires forall k :: 0 <= k < |s| ==> !IsSpace(s[k])
    ensures CollapseFrom(s, inRun) == s
    decreases |s|
  {
    if s != [] {
      CollapseClean(s[1..], false);
    }
  }

  lemma ReplaceClean(s: string)
    requires forall k :: 0 <= k < |s| ==> !Forbidden(s[k])
    ensures ReplaceForbidden(s) == s
  {
  }

  /** A sanitised title is its own sanitised form. */
  lemma SanitiseIdempotent(title: string)
    ensures Sanitise(Sanitise(title)) == Sanitise(title)
  {
    var t := Sanitise(title);
    SanitisedIsClean(title);
    ReplaceClean(t);
    CollapseClean(t, false);
  }

  /** The run collapse keeps a first character that is not whitespace. */
  lemma CollapseFirst(s: string)
    requires s != [] && !IsSpace(s[0])
    ensures CollapseWhitespace(s) != [] && CollapseWhitespace(s)[0] == s[0]
  {
  }

  /** The run collapse keeps a last character that is not whitespace. */
  lemma {:induction false} CollapseLast(s: string, inRun: bool)
    requires s != [] && !IsSpace(s[|s| - 1])
    ensures CollapseFrom(s, inRun) != []
    ensures CollapseFrom(s, inRun)[|CollapseFrom(s, inRun)| - 1] == s[|s| - 1]
    decreases |s|
  {
    if |s| > 1 {
      assert s[1..][|s| - 2] == s[|s| - 1];
      CollapseLast(s[1..], IsSpace(s[0]));
    }
  }

  /**
   * Stripping first means no "_" at either end comes from whitespace: the
   * ends of a sanitised title are the ends of the stripped title, only
   * made safe, and a title is sanitised to "" exactly when it is all whitespace.
   */
  lemma SanitisedEnds(title: string)
    ensures var s := Strip(title);
      (Sanitise(title) == [] <==> s == []) &&
      (s != [] ==> Sanitise(title)[0] == Safe(s[0]) &&
                   Sanitise(title)[|Sanitise(title)| - 1] == Safe(s[|s| - 1]))
  {
    var s := Strip(title);
    if s != [] {
      var r := ReplaceForbidden(s);
      CollapseFirst(r);
      CollapseLast(r, false);
    }
  }

  // ---------------------------------------------------------------------
  // The two loops

  /**
   * The first loop's view of one page: its title, defaulting to "", after
   * the `get` calls into the body, each of which needs a dict.
   */
  function TitleOf(page: Json): (r: Result<Json, PyError>)
    ensures r.Success? <==> page.JObj? && GetNested(page, "body", "storage", "value", JStr("")).Success?
    ensures r.Success? ==> r.value == GetOr(page.members, "title", JStr(""))
    ensures r.Failure? ==> r.error == AttributeError
  {
    var title :- Get(page, "title", JStr(""));
    var _ :- GetNested(page, "body", "storage", "value", JStr(""));
    Success(title)
  }

  /**
   * The titles of `pages` in order, or the error a page raises; every page
   * that raises raises an AttributeError, so which one comes first does not
   * show in the result.
   */
  function Titles(pages: seq<Json>): Result<seq<Json>, PyError> {
    if forall k :: 0 <= k < |pages| ==> TitleOf(pages[k]).Success? then
      Success(seq(|pages|, k requires 0 <= k < |pages| => TitleOf(pages[k]).value))
    else Failure(AttributeError)
  }

  /** A page without a title contributes "". */
  lemma MissingTitleIsEmpty(pages: seq<Json>, k: nat)
    requires Titles(pages).Success? && k < |pages|
    requires forall j :: 0 <= j < |pages[k].members| ==> pages[k].members[j].0 != "title"
    ensures Titles(pages).value[k] == JStr("")
  {
  }

  /** The first loop: one title per page of the loaded list, "" for a page without one. */
  method ExtractTitles(data: Json) returns (r: Result<seq<Json>, PyError>)
    ensures Iterate(data).Failure? ==> r == Failure(Iterate(data).error)
    ensures Iterate(data).Success? ==> r == Titles(Iterate(data).value)
  {
    var items := Iterate(data);
    if items.Failure? {
      return Failure(items.error);
    }
    var pages := items.value;
    var titles: seq<Json> := [];
    for i := 0 to |pages|
      invariant |titles| == i
      invariant forall k :: 0 <= k < i ==> TitleOf(pages[k]).Success? && titles[k] == TitleOf(pages[k]).value
    {
      var page := pages[i];
      var title := Get(page, "title", JStr(""));
      if title.Failure? {
        return Failure(title.error);
      }
      var body := Get(page, "body", JObj([]));
      var storage := Get(body.value, "storage", JObj([]));
      if storage.Failure? {
        return Failure(storage.error);
      }
      var value := Get(storage.value, "value", JStr(""));
      if value.Failure? {
        return Failure(value.error);
      }
      titles := titles + [title.value];
    }
    assert titles == Titles(pages).value;
    r := Success(titles);
  }

  /** The sanitised form of every title in order, failing on a title that is not a string. */
  function SanitisedAll(titles: seq<Json>): Result<seq<string>, PyError> {
    if forall k :: 0 <= k < |titles| ==> titles[k].JStr? then
      Success(seq(|titles|, k requires 0 <= k < |titles| => Sanitise(titles[k].s)))
    else Failure(AttributeError)
  }

  /** The second loop: the sanitised title of each title, in order. */
  method SanitiseTitles(titles: seq<Json>) returns (r: Result<seq<string>, PyError>)
    ensures r == SanitisedAll(titles)
  {
    var updated: seq<string> := [];
    for i := 0 to |titles|
      invariant |updated| == i
      invariant forall k :: 0 <= k < i ==> titles[k].JStr? && updated[k] == Sanitise(titles[k].s)
    {
      if !titles[i].JStr? {
        assert SanitisedAll(titles).Failure?;
        return Failure(AttributeError);
      }
      var title := titles[i].s;
      title := Strip(title);
      title := ReplaceForbidden(title);
      title := CollapseWhitespace(title);
      updated := updated + [title];
    }
    assert updated == SanitisedAll(titles).value;
    r := Success(updated);
  }
}
