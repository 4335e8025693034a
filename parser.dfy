/**
 * The exporter: for every page of a backup list, the directory it belongs
 * in (by space and parent folder), a metadata file for every page with an
 * id, and a styled HTML document for every page that also has a body.
 *
 * Files are not written: the exporter's effect is the ordered log of the
 * writes it would issue, each with its path and what goes into it.
 */
module Exporter {
  import opened Wrappers
  import opened JsonValue
  import Url

  // ---------------------------------------------------------------------
  // Paths

  /** A filesystem path as `pathlib` keeps it: absolute or not, and its parts. */
  datatype FsPath = FsPath(absolute: bool, parts: seq<string>)

  /**
   * The parts `pathlib` makes of a relative path string: the pieces
   * between slashes, without empty pieces and without ".".
   */
  function Segments(s: string): (parts: seq<string>)
    ensures forall k :: 0 <= k < |parts| ==> parts[k] != "" && parts[k] != "." && '/' !in parts[k]
    decreases |s|
  {
    var k := Url.FindAny(s, {'/'});
    var piece := s[..k];
    var rest := if k < |s| then Segments(s[k + 1..]) else [];
    if piece == "" || piece == "." then rest else [piece] + rest
  }

  /**
   * `dir / s`: a string starting with "/" is an absolute path and replaces
   * `dir`; any other string adds its parts below `dir`.
   */
  function Join(dir: FsPath, s: string): (p: FsPath)
    ensures s == [] || s[0] != '/' ==> p == FsPath(dir.absolute, dir.parts + Segments(s))
    ensures s != [] && s[0] == '/' ==> p == FsPath(true, Segments(s))
  {
    if s != [] && s[0] == '/' then FsPath(true, Segments(s))
    else FsPath(dir.absolute, dir.parts + Segments(s))
  }

  /** No part of a path names the parent directory. */
  predicate NoParent(parts: seq<string>) {
    forall k :: 0 <= k < |parts| ==> parts[k] != ".."
  }

  /** The relative path `s` has no ".." part. */
  predicate NoParentPart(s: string) {
    NoParent(Segments(s))
  }

  /**
   * `p` lies inside `dir`: it starts with the parts of `dir`, and none of
   * the parts after them climbs back out.
   */
  predicate Under(p: FsPath, dir: FsPath) {
    p.absolute == dir.absolute && |dir.parts| <= |p.parts| && p.parts[..|dir.parts|] == dir.parts &&
    NoParent(p.parts[|dir.parts|..])
  }

  /** `./data/exported_pages`. */
  const OutputRoot: FsPath := FsPath(false, ["data", "exported_pages"])

  /** The directory name of a page's space: "unknown-space" only when the key is absent. */
  function SpaceLabel(page: seq<(string, Json)>): string {
    "space-" + Show(GetOr(page, "spaceId", JStr("unknown-space")))
  }

  /** The directory name of a page's folder: the parent id if it is truthy, otherwise "root". */
  function FolderLabel(page: seq<(string, Json)>): string {
    var parent := GetOr(page, "parentId", JNull);
    if Truthy(parent) then "folder-" + Show(parent) else "folder-root"
  }

  /** A string without "/" is a single part, unless it is empty or ".". */
  lemma SingleSegment(s: string)
    requires '/' !in s && s != "" && s != "."
    ensures Segments(s) == [s]
  {
    Url.FindAnyAt(s, {'/'}, |s|);
    assert s[..|s|] == s;
  }

  lemma NoParentAppend(a: seq<string>, b: seq<string>)
    requires NoParent(a) && NoParent(b)
    ensures NoParent(a + b)
  {
    forall k | 0 <= k < |a + b|
      ensures (a + b)[k] != ".."
    {
      if k >= |a| {
        assert (a + b)[k] == b[k - |a|];
      }
    }
  }

  /** `Segments` cut at the first "/", which is at `k` (or `k == |s|` when there is none). */
  lemma SegmentsSplit(s: string, k: nat)
    requires k <= |s| && (k < |s| ==> s[k] == '/')
    requires forall i :: 0 <= i < k ==> s[i] != '/'
    ensures Segments(s) == (if s[..k] == "" || s[..k] == "." then [] else [s[..k]])
                           + (if k < |s| then Segments(s[k + 1..]) else [])
  {
    Url.FindAnyAt(s, {'/'}, k);
    var piece := s[..k];
    var rest := if k < |s| then Segments(s[k + 1..]) else [];
    assert Segments(s) == if piece == "" || piece == "." then rest else [piece] + rest;
  }

  /** What follows the first "/" of a path without ".." parts has none either. */
  lemma NoParentAfterSlash(x: string, k: nat)
    requires k < |x| && x[k] == '/' && forall i :: 0 <= i < k ==> x[i] != '/'
    requires NoParentPart(x)
    ensures NoParentPart(x[k + 1..])
  {
    SegmentsSplit(x, k);
    var rest := Segments(x[k + 1..]);
    forall j | 0 <= j < |rest|
      ensures rest[j] != ".."
    {
      if x[..k] == "" || x[..k] == "." {
        assert rest[j] == Segments(x)[j];
      } else {
        assert rest[j] == Segments(x)[j + 1];
      }
    }
  }

  /**
   * A prefix without "/" that does not start with "." glues onto the first
   * part of `x`, so it brings in no ".." part.
   */
  lemma SegmentsPrefix(p: string, x: string)
    requires p != [] && '/' !in p && p[0] != '.'
    ensures NoParentPart(x) ==> NoParentPart(p + x)
  {
    if NoParentPart(x) {
      var kx := Url.FindAny(x, {'/'});
      var s := p + x;
      var k := |p| + kx;
      PrependKept(p, x, kx);
      SegmentsSplit(s, k);
      var piece := s[..k];
      assert piece[0] == p[0];
      var rest := if kx < |x| then Segments(x[kx + 1..]) else [];
      assert Segments(s) == [piece] + rest;
      if kx < |x| {
        NoParentAfterSlash(x, kx);
      }
      NoParentAppend([piece], rest);
    }
  }

  /** Putting `p`, which has no "/", before `x` moves the first "/" of `x` by `|p|`. */
  lemma PrependKept(p: string, x: string, kx: nat)
    requires '/' !in p && kx <= |x| && (kx < |x| ==> x[kx] == '/')
    requires forall i :: 0 <= i < kx ==> x[i] != '/'
    ensures var s := p + x; var k := |p| + kx;
      (k < |s| ==> s[k] == '/') && (forall i :: 0 <= i < k ==> s[i] != '/') &&
      s[..k] == p + x[..kx] && (k < |s| ==> s[k + 1..] == x[kx + 1..])
  {
    var s := p + x;
    forall i | 0 <= i < |p| + kx
      ensures s[i] != '/'
    {
      if i < |p| {
        assert s[i] == p[i] && s[i] in p;
      } else {
        assert s[i] == x[i - |p|];
      }
    }
  }

  /**
   * A suffix without "/" that does not end in "." glues onto the last part
   * of `x`, so it brings in no ".." part.
   */
  lemma {:induction false} SegmentsSuffix(x: string, t: string)
    requires t != [] && '/' !in t && t[|t| - 1] != '.'
    ensures NoParentPart(x) ==> NoParentPart(x + t)
    decreases |x|
  {
    var kx := Url.FindAny(x, {'/'});
    if kx < |x| {
      if NoParentPart(x) {
        NoParentAfterSlash(x, kx);
        SegmentsSuffix(x[kx + 1..], t);
        SuffixAfterSlash(x, t, kx);
      }
    } else {
      var s := x + t;
      assert forall i :: 0 <= i < |s| ==> s[i] == (if i < |x| then x[i] else t[i - |x|]);
      assert s[|s| - 1] == t[|t| - 1];
      SingleSegment(s);
    }
  }

  /**
   * Appending `t` after the first "/" of `x` changes only the parts after
   * it, so when those stay free of ".." so does the whole.
   */
  lemma SuffixAfterSlash(x: string, t: string, kx: nat)
    requires kx < |x| && x[kx] == '/' && forall i :: 0 <= i < kx ==> x[i] != '/'
    requires NoParentPart(x) && NoParentPart(x[kx + 1..] + t)
    ensures NoParentPart(x + t)
  {
    var s := x + t;
    var piece := x[..kx];
    var head := if piece == "" || piece == "." then [] else [piece];
    PrefixKept(x, t, kx);
    SegmentsSplit(x, kx);
    SegmentsSplit(s, kx);
    var tail := Segments(s[kx + 1..]);
    assert Segments(s) == head + tail;
    FrontNoParent(Segments(x), head, Segments(x[kx + 1..]));
    NoParentAppend(head, tail);
  }

  /** Appending to `x` keeps the characters up to its `kx`-th. */
  lemma PrefixKept(x: string, t: string, kx: nat)
    requires kx < |x| && x[kx] == '/' && forall i :: 0 <= i < kx ==> x[i] != '/'
    ensures (x + t)[kx] == '/' && forall i :: 0 <= i < kx ==> (x + t)[i] != '/'
    ensures (x + t)[..kx] == x[..kx] && (x + t)[kx + 1..] == x[kx + 1..] + t
  {
  }

  lemma FrontNoParent(whole: seq<string>, front: seq<string>, back: seq<string>)
    requires whole == front + back && NoParent(whole)
    ensures NoParent(front)
  {
    assert forall k :: 0 <= k < |front| ==> front[k] == whole[k];
  }

  /** The space id and, when it is truthy, the parent id have no ".." part as text. */
  predicate PlainDirNames(page: seq<(string, Json)>) {
    NoParentPart(Show(GetOr(page, "spaceId", JStr("unknown-space")))) &&
    (Truthy(GetOr(page, "parentId", JNull)) ==> NoParentPart(Show(GetOr(page, "parentId", JNull))))
  }

  /**
   * Where a page's files go: the space directory, then the folder directory,
   * below the output root. Both names start with a letter, so neither can
   * replace the root; they stay inside it unless the space id or the parent
   * id climbs out with a ".." part.
   */
  function OutputDir(page: seq<(string, Json)>): (dir: FsPath)
    ensures dir == FsPath(false, OutputRoot.parts + Segments(SpaceLabel(page)) + Segments(FolderLabel(page)))
  {
    var spaceDir := Join(OutputRoot, SpaceLabel(page));
    Join(spaceDir, FolderLabel(page))
  }

  /** A page's directory stays inside the output root unless its space id or parent id has a ".." part. */
  lemma OutputDirInsideRoot(page: seq<(string, Json)>)
    requires PlainDirNames(page)
    ensures Under(OutputDir(page), OutputRoot)
  {
    SpaceLabelPlain(page);
    FolderLabelPlain(page);
    UnderRoot(Segments(SpaceLabel(page)), Segments(FolderLabel(page)));
  }

  lemma UnderRoot(a: seq<string>, b: seq<string>)
    requires NoParent(a) && NoParent(b)
    ensures Under(FsPath(false, OutputRoot.parts + a + b), OutputRoot)
  {
    NoParentAppend(a, b);
    assert (OutputRoot.parts + a + b)[2..] == a + b;
  }

  lemma SpaceLabelPlain(page: seq<(string, Json)>)
    requires NoParentPart(Show(GetOr(page, "spaceId", JStr("unknown-space"))))
    ensures NoParentPart(SpaceLabel(page))
  {
    SegmentsPrefix("space-", Show(GetOr(page, "spaceId", JStr("unknown-space"))));
  }

  lemma FolderLabelPlain(page: seq<(string, Json)>)
    requires Truthy(GetOr(page, "parentId", JNull)) ==> NoParentPart(Show(GetOr(page, "parentId", JNull)))
    ensures NoParentPart(FolderLabel(page))
  {
    var parent := GetOr(page, "parentId", JNull);
    if Truthy(parent) {
      SegmentsPrefix("folder-", Show(parent));
    } else {
      SingleSegment("folder-root");
    }
  }

  /** "unknown-space" stands in for a missing `spaceId` only: a present one is shown whatever its value. */
  lemma UnknownSpaceOnlyWhenAbsent(page: seq<(string, Json)>)
    ensures Find(page, "spaceId").None? ==> SpaceLabel(page) == "space-unknown-space"
    ensures Find(page, "spaceId").Some? ==> SpaceLabel(page) == "space-" + Show(Find(page, "spaceId").value)
  {
  }

  /** The folder part of a page's directory is "folder-root" exactly when it has no truthy parent id. */
  lemma FolderRootExactly(page: seq<(string, Json)>)
    ensures FolderLabel(page) == "folder-root" <==>
      (!Truthy(GetOr(page, "parentId", JNull)) || Show(GetOr(page, "parentId", JNull)) == "root")
  {
    var parent := GetOr(page, "parentId", JNull);
    if Truthy(parent) {
      if Show(parent) != "root" {
        assert ("folder-" + Show(parent))[7..] == Show(parent);
        assert "folder-root"[7..] == "root";
      } else {
        assert "folder-" + "root" == "folder-root";
      }
    }
  }

  // ---------------------------------------------------------------------
  // HTML escaping

  /** What `html.escape` makes of one character. */
  function EscapeChar(c: char): string {
    if c == '&' then "&amp;"
    else if c == '<' then "&lt;"
    else if c == '>' then "&gt;"
    else if c == '"' then "&quot;"
    else if c == '\'' then "&#x27;"
    else [c]
  }

  /** `html.escape(s)` with quotes escaped. */
  function Escape(s: string): string
    decreases |s|
  {
    if s == [] then "" else EscapeChar(s[0]) + Escape(s[1..])
  }

  predicate Markup(c: char) {
    c == '<' || c == '>' || c == '"' || c == '\''
  }

  /** Escaped text holds no character that could open or close a tag or an attribute. */
  lemma {:induction false} EscapeHasNoMarkup(s: string)
    ensures forall i :: 0 <= i < |Escape(s)| ==> !Markup(Escape(s)[i])
    decreases |s|
  {
    if s != [] {
      EscapeHasNoMarkup(s[1..]);
      var head, tail := EscapeChar(s[0]), Escape(s[1..]);
      assert forall i :: 0 <= i < |head| ==> !Markup(head[i]);
      forall i | 0 <= i < |head + tail|
        ensures !Markup((head + tail)[i])
      {
        if i >= |head| {
          assert (head + tail)[i] == tail[i - |head|];
        }
      }
    }
  }

  /** The inverse of `Escape`: the five entities back to their characters. */
  function Unescape(s: string): string
    decreases |s|
  {
    if |s| >= 5 && s[0] == '&' && s[1] == 'a' && s[2] == 'm' && s[3] == 'p' && s[4] == ';' then
      ['&'] + Unescape(s[5..])
    else if |s| >= 4 && s[0] == '&' && s[1] == 'l' && s[2] == 't' && s[3] == ';' then
      ['<'] + Unescape(s[4..])
    else if |s| >= 4 && s[0] == '&' && s[1] == 'g' && s[2] == 't' && s[3] == ';' then
      ['>'] + Unescape(s[4..])
    else if |s| >= 6 && s[0] == '&' && s[1] == 'q' && s[2] == 'u' && s[3] == 'o' && s[4] == 't' && s[5] == ';' then
      ['"'] + Unescape(s[6..])
    else if |s| >= 6 && s[0] == '&' && s[1] == '#' && s[2] == 'x' && s[3] == '2' && s[4] == '7' && s[5] == ';' then
      ['\''] + Unescape(s[6..])
    else if s == [] then ""
    else [s[0]] + Unescape(s[1..])
  }

  lemma UnescapeOneChar(c: char, rest: string)
    ensures Unescape(EscapeChar(c) + rest) == [c] + Unescape(rest)
  {
    var e := EscapeChar(c) + rest;
    if c == '&' {
      assert e == "&amp;" + rest;
      assert e[0] == '&' && e[1] == 'a' && e[2] == 'm' && e[3] == 'p' && e[4] == ';' && e[5..] == rest;
    } else if c == '<' {
      assert e == "&lt;" + rest;
      assert e[0] == '&' && e[1] == 'l' && e[2] == 't' && e[3] == ';' && e[4..] == rest;
    } else if c == '>' {
      assert e == "&gt;" + rest;
      assert e[0] == '&' && e[1] == 'g' && e[2] == 't' && e[3] == ';' && e[4..] == rest;
    } else if c == '"' {
      assert e == "&quot;" + rest;
      assert e[0] == '&' && e[1] == 'q' && e[2] == 'u' && e[3] == 'o' && e[4] == 't' && e[5] == ';';
      assert e[6..] == rest;
    } else if c == '\'' {
      assert e == "&#x27;" + rest;
      assert e[0] == '&' && e[1] == '#' && e[2] == 'x' && e[3] == '2' && e[4] == '7' && e[5] == ';';
      assert e[6..] == rest;
    } else {
      assert e == [c] + rest;
      assert e[0] == c && e[1..] == rest;
    }
  }

  /** Escaping loses nothing: the original title can be read back from the document. */
  lemma {:induction false} UnescapeEscape(s: string)
    ensures Unescape(Escape(s)) == s
    decreases |s|
  {
    if s != [] {
      UnescapeOneChar(s[0], Escape(s[1..]));
      UnescapeEscape(s[1..]);
    }
  }

  // ---------------------------------------------------------------------
  // The HTML document

  /** `t` occurs in `s`. */
  predicate Infix(t: string, s: string) {
    exists i :: 0 <= i <= |s| - |t| && s[i..][..|t|] == t
  }

  lemma InfixAfter(head: string, t: string, s: string)
    requires Infix(t, s)
    ensures Infix(t, head + s)
  {
    var i :| 0 <= i <= |s| - |t| && s[i..][..|t|] == t;
    assert (head + s)[|head| + i..] == s[i..];
  }

  /** The fields the document template substitutes. */
  datatype Slot = TitleSlot | IdSlot | SpaceSlot | FolderSlot | StatusSlot | CreatedSlot | BodySlot

  /** A template is fixed text with holes for fields. */
  datatype Piece = Text(text: string) | Hole(slot: Slot)

  /** The values of the fields, as the text the template inserts. */
  datatype DocFields = DocFields(title: string, id: string, space: string, folder: string,
                                 status: string, created: string, body: string)

  function SlotText(slot: Slot, f: DocFields): string {
    match slot
    case TitleSlot => f.title
    case IdSlot => f.id
    case SpaceSlot => f.space
    case FolderSlot => f.folder
    case StatusSlot => f.status
    case CreatedSlot => f.created
    case BodySlot => f.body
  }

  function PieceText(p: Piece, f: DocFields): string {
    match p
    case Text(t) => t
    case Hole(slot) => SlotText(slot, f)
  }

  /** The template with every hole filled in. */
  function Render(template: seq<Piece>, f: DocFields): string
    decreases |template|
  {
    if template == [] then "" else PieceText(template[0], f) + Render(template[1..], f)
  }

  /** Three consecutive pieces appear together in the filled-in template. */
  lemma {:induction false} InfixOfPieces(template: seq<Piece>, f: DocFields, k: nat)
    requires k + 3 <= |template|
    ensures Infix(PieceText(template[k], f) + PieceText(template[k + 1], f) + PieceText(template[k + 2], f),
                  Render(template, f))
    decreases k
  {
    var t := PieceText(template[k], f) + PieceText(template[k + 1], f) + PieceText(template[k + 2], f);
    if k == 0 {
      var p1, p2 := template[1..], template[1..][1..];
      var rest := Render(p2[1..], f);
      assert p1[0] == template[1] && p2[0] == template[2];
      assert Render(p2, f) == PieceText(template[2], f) + rest;
      assert Render(p1, f) == PieceText(template[1], f) + Render(p2, f);
      assert Render(template, f) == t + rest;
      assert (t + rest)[0..][..|t|] == t;
    } else {
      InfixOfPieces(template[1..], f, k - 1);
      assert template[1..][k - 1] == template[k] && template[1..][k] == template[k + 1];
      assert template[1..][k + 1] == template[k + 2];
      InfixAfter(PieceText(template[0], f), t, Render(template[1..], f));
    }
  }

  // The fixed fragments of the document template, in order.
  const DocHead: string := "<!DOCTYPE html>\n<html lang=\"ko\">\n<head>\n    <meta charset=\"utf-8\" />\n    "
  const TitleOpen: string := "<title>"
  const TitleClose: string := "</title>"
  const StyleOpen: string := "\n    <style>"
  const StyleToHeader: string :=
    "</style>\n</head>\n<body>\n    <div class=\"page-wrapper\">\n"
    + "        <header class=\"page-header\">\n            "
  const HeadingOpen: string := "<h1>"
  const HeadingClose: string := "</h1>"
  const MetaOpen: string := "\n            <div class=\"meta\">\n                <span>"
  const IdField: string := "<strong>ID</strong> "
  const SpaceField: string := "<strong>Space</strong> "
  const FolderFieldLabel: string := "<strong>Folder</strong> "
  const StatusField: string := "<strong>Status</strong> "
  const CreatedField: string := "<strong>Created</strong> "
  const SpanBreak: string := "</span>\n                <span>"
  const MetaClose: string := "</span>\n            </div>\n        </header>\n\n        "
  const CardOpen: string := "<main class=\"card\">\n"
  const CardClose: string := "\n        </main>"
  const FooterOpen: string :=
    "\n\n        <footer>\n            <hr />\n            <div>Exported from Confluence space "
  const FooterClose: string := " · Local backup view</div>\n        </footer>\n    </div>\n</body>\n</html>\n"

  /**
   * The page document around a style sheet, whose rules this model does not
   * spell out: the title twice, the space id twice.
   */
  function PageTemplate(style: string): (t: seq<Piece>)
    ensures |t| == 30
  {
    [ Text(DocHead),
      Text(TitleOpen), Hole(TitleSlot), Text(TitleClose),
      Text(StyleOpen + style + StyleToHeader),
      Text(HeadingOpen), Hole(TitleSlot), Text(HeadingClose),
      Text(MetaOpen),
      Text(IdField), Hole(IdSlot), Text(SpanBreak),
      Text(SpaceField), Hole(SpaceSlot), Text(SpanBreak),
      Text(FolderFieldLabel), Hole(FolderSlot), Text(SpanBreak),
      Text(StatusField), Hole(StatusSlot), Text(SpanBreak),
      Text(CreatedField), Hole(CreatedSlot), Text(MetaClose),
      Text(CardOpen), Hole(BodySlot), Text(CardClose),
      Text(FooterOpen), Hole(SpaceSlot), Text(FooterClose) ]
  }

  /** `html.escape(title or "")`: a truthy title that is not a string has no `replace`. */
  function TitleSafe(title: Json): (r: Result<string, PyError>)
    ensures r.Failure? <==> Truthy(title) && !title.JStr?
    ensures r.Failure? ==> r.error == AttributeError
    ensures !Truthy(title) ==> r == Success("")
    ensures title.JStr? ==> r == Success(Escape(title.s))
  {
    if !Truthy(title) then Success("")
    else if title.JStr? then Success(Escape(title.s))
    else Failure(AttributeError)
  }

  /** `parent_id or "-"`, as the Folder field shows it. */
  function FolderField(page: seq<(string, Json)>): string {
    var parent := GetOr(page, "parentId", JStr(""));
    if Truthy(parent) then Show(parent) else "-"
  }

  /** The field values of a page's document, once its title has been escaped. */
  function PageFields(pageId: Json, titleText: string, body: Json, page: seq<(string, Json)>): DocFields {
    DocFields(titleText, Show(pageId), Show(GetOr(page, "spaceId", JStr(""))),
              FolderField(page), Show(GetOr(page, "status", JStr(""))),
              Show(GetOr(page, "createdAt", JStr(""))), Show(body))
  }

  lemma DocumentTitle(f: DocFields, style: string)
    ensures Infix(TitleOpen + f.title + TitleClose, Render(PageTemplate(style), f))
  {
    var template := PageTemplate(style);
    assert template[1] == Text(TitleOpen) && template[2] == Hole(TitleSlot) && template[3] == Text(TitleClose);
    assert PieceText(template[1], f) + PieceText(template[2], f) + PieceText(template[3], f)
        == TitleOpen + f.title + TitleClose;
    InfixOfPieces(template, f, 1);
  }

  lemma DocumentHeading(f: DocFields, style: string)
    ensures Infix(HeadingOpen + f.title + HeadingClose, Render(PageTemplate(style), f))
  {
    var template := PageTemplate(style);
    assert template[5] == Text(HeadingOpen) && template[6] == Hole(TitleSlot) && template[7] == Text(HeadingClose);
    assert PieceText(template[5], f) + PieceText(template[6], f) + PieceText(template[7], f)
        == HeadingOpen + f.title + HeadingClose;
    InfixOfPieces(template, f, 5);
  }

  lemma DocumentFolder(f: DocFields, style: string)
    ensures Infix(FolderFieldLabel + f.folder + SpanBreak, Render(PageTemplate(style), f))
  {
    var template := PageTemplate(style);
    assert template[15] == Text(FolderFieldLabel) && template[16] == Hole(FolderSlot) && template[17] == Text(SpanBreak);
    assert PieceText(template[15], f) + PieceText(template[16], f) + PieceText(template[17], f)
        == FolderFieldLabel + f.folder + SpanBreak;
    InfixOfPieces(template, f, 15);
  }

  lemma DocumentCard(f: DocFields, style: string)
    ensures Infix(CardOpen + f.body + CardClose, Render(PageTemplate(style), f))
  {
    var template := PageTemplate(style);
    assert template[24] == Text(CardOpen) && template[25] == Hole(BodySlot) && template[26] == Text(CardClose);
    assert PieceText(template[24], f) + PieceText(template[25], f) + PieceText(template[26], f)
        == CardOpen + f.body + CardClose;
    InfixOfPieces(template, f, 24);
  }

  /** The document text of a page: the page template with its fields filled in. */
  function Document(f: DocFields, style: string): string {
    Render(PageTemplate(style), f)
  }

  /**
   * `build_html_doc`: fails only on a title that cannot be escaped, and
   * otherwise fills the page template with the escaped title and the
   * page's fields.
   */
  function BuildHtmlDoc(pageId: Json, title: Json, body: Json, page: seq<(string, Json)>, style: string)
    : (r: Result<string, PyError>)
    ensures r.Failure? <==> Truthy(title) && !title.JStr?
    ensures r.Failure? ==> r.error == AttributeError
    ensures r.Success? ==> r.value == Document(PageFields(pageId, TitleSafe(title).value, body, page), style)
  {
    var titleSafe :- TitleSafe(title);
    Success(Document(PageFields(pageId, titleSafe, body, page), style))
  }

  /**
   * What a built document shows: the escaped title in the `<title>` and the
   * `<h1>`, the folder in the metadata, and the body, unescaped, inside the card.
   */
  lemma BuildHtmlDocShows(pageId: Json, title: Json, body: Json, page: seq<(string, Json)>, style: string)
    requires !Truthy(title) || title.JStr?
    ensures var doc := BuildHtmlDoc(pageId, title, body, page, style).value;
      Infix(TitleOpen + TitleSafe(title).value + TitleClose, doc) &&
      Infix(HeadingOpen + TitleSafe(title).value + HeadingClose, doc) &&
      Infix(FolderFieldLabel + FolderField(page) + SpanBreak, doc) &&
      Infix(CardOpen + Show(body) + CardClose, doc)
  {
    var f := PageFields(pageId, TitleSafe(title).value, body, page);
    DocumentTitle(f, style);
    DocumentHeading(f, style);
    DocumentFolder(f, style);
    DocumentCard(f, style);
  }

  // ---------------------------------------------------------------------
  // The export loop

  /** What a write puts in its file: the page as JSON, or an HTML document. */
  datatype Content = Meta(page: Json) | Html(doc: string)

  datatype Write = Write(path: FsPath, content: Content)

  /** The writes one page causes, and the error that stops the export on it, if any. */
  datatype PageRun = PageRun(writes: seq<Write>, error: Option<PyError>)

  /** The writes of an export, and the error that ended it early, if any. */
  datatype ExportRun = ExportRun(writes: seq<Write>, error: Option<PyError>)

  function CountMeta(ws: seq<Write>): (n: nat)
    ensures n <= |ws|
    decreases |ws|
  {
    if ws == [] then 0
    else CountMeta(ws[..|ws| - 1]) + (if ws[|ws| - 1].content.Meta? then 1 else 0)
  }

  function CountHtml(ws: seq<Write>): (n: nat)
    ensures n <= |ws|
    decreases |ws|
  {
    if ws == [] then 0
    else CountHtml(ws[..|ws| - 1]) + (if ws[|ws| - 1].content.Html? then 1 else 0)
  }

  lemma {:induction false} CountAppend(ws: seq<Write>, more: seq<Write>)
    ensures CountMeta(ws + more) == CountMeta(ws) + CountMeta(more)
    ensures CountHtml(ws + more) == CountHtml(ws) + CountHtml(more)
    decreases |more|
  {
    if more != [] {
      assert (ws + more)[..|ws + more| - 1] == ws + more[..|more| - 1];
      CountAppend(ws, more[..|more| - 1]);
    } else {
      assert ws + more == ws;
    }
  }

  /** The body a page's HTML document would show: `page["body"]["storage"]["value"]`, defaulting to "". */
  function BodyOf(page: Json): Result<Json, PyError> {
    GetNested(page, "body", "storage", "value", JStr(""))
  }

  /**
   * One iteration of the export loop. The id, the title and the body are
   * read before the id is checked, so a body that is not a dict raises
   * even on a page without an id.
   */
  function ExportPage(page: Json, style: string): PageRun
  {
    if !page.JObj? then PageRun([], Some(AttributeError))
    else
      var id := GetOr(page.members, "id", JNull);
      var title := GetOr(page.members, "title", JStr(""));
      match BodyOf(page)
      case Failure(e) => PageRun([], Some(e))
      case Success(body) =>
        if !Truthy(id) then PageRun([], None)
        else
          var dir := OutputDir(page.members);
          var meta := Write(Join(dir, Show(id) + ".json"), Meta(page));
          if !Truthy(body) then PageRun([meta], None)
          else match BuildHtmlDoc(id, title, body, page.members, style)
            case Failure(e) => PageRun([meta], Some(e))
            case Success(doc) => PageRun([meta, Write(Join(dir, Show(id) + ".html"), Html(doc))], None)
  }

  /** The export of `pages` in order; it stops at the first page that raises. */
  function Export(pages: seq<Json>, style: string): ExportRun
    decreases |pages|
  {
    if pages == [] then ExportRun([], None)
    else
      var prev := Export(pages[..|pages| - 1], style);
      if prev.error.Some? then prev
      else
        var p := ExportPage(pages[|pages| - 1], style);
        ExportRun(prev.writes + p.writes, p.error)
  }

  /** `for page in data` over the loaded backup: anything but a list, a string or a dict raises at once. */
  function ExportAll(data: Json, style: string): ExportRun {
    match Iterate(data)
    case Failure(e) => ExportRun([], Some(e))
    case Success(pages) => Export(pages, style)
  }

  /** Once a page has raised, later pages change nothing. */
  lemma {:induction false} ErrorSticks(pages: seq<Json>, n: nat, style: string)
    requires n <= |pages| && Export(pages[..n], style).error.Some?
    ensures Export(pages, style) == Export(pages[..n], style)
    decreases |pages|
  {
    if n < |pages| {
      assert pages[..|pages| - 1][..n] == pages[..n];
      ErrorSticks(pages[..|pages| - 1], n, style);
    } else {
      assert pages[..n] == pages;
    }
  }

  /** The pages with a truthy id. */
  function WithId(pages: seq<Json>): (n: nat)
    decreases |pages|
  {
    if pages == [] then 0
    else
      var last := pages[|pages| - 1];
      WithId(pages[..|pages| - 1]) + (if last.JObj? && Truthy(GetOr(last.members, "id", JNull)) then 1 else 0)
  }

  lemma CountOne(meta: Write)
    requires meta.content.Meta?
    ensures CountMeta([meta]) == 1 && CountHtml([meta]) == 0
  {
    assert [meta][..0] == [];
  }

  lemma CountTwo(meta: Write, doc: Write)
    requires meta.content.Meta? && doc.content.Html?
    ensures CountMeta([meta, doc]) == 1 && CountHtml([meta, doc]) == 1
  {
    assert [meta, doc][..1] == [meta] && [meta][..0] == [];
  }

  /** The counts of one page's writes: a metadata file exactly for a page with an id that does not raise first. */
  lemma PageCounts(page: Json, style: string)
    ensures CountHtml(ExportPage(page, style).writes) <= CountMeta(ExportPage(page, style).writes)
    ensures ExportPage(page, style).error.None? ==>
      CountMeta(ExportPage(page, style).writes) == (if page.JObj? && Truthy(GetOr(page.members, "id", JNull)) then 1 else 0)
  {
    if !page.JObj? {
      PageNotDict(page, style);
    } else if BodyOf(page).Failure? {
      PageBadBody(page, style);
    } else if !Truthy(GetOr(page.members, "id", JNull)) {
      PageNoId(page, style);
    } else {
      CountOne(MetaWrite(page));
      if !Truthy(BodyOf(page).value) {
        PageNoBody(page, style);
      } else if TitleSafe(GetOr(page.members, "title", JStr(""))).Failure? {
        PageBadTitle(page, style);
      } else {
        PageWithDocument(page, style);
        CountTwo(MetaWrite(page), HtmlWrite(page, style));
      }
    }
  }

  /**
   * An export that completes writes exactly one metadata file per page with
   * a truthy id, and never more HTML documents than metadata files.
   */
  lemma {:induction false} ExportCounts(pages: seq<Json>, style: string)
    ensures CountHtml(Export(pages, style).writes) <= CountMeta(Export(pages, style).writes)
    ensures Export(pages, style).error.None? ==> CountMeta(Export(pages, style).writes) == WithId(pages)
    decreases |pages|
  {
    if pages != [] {
      var init := pages[..|pages| - 1];
      ExportCounts(init, style);
      var prev := Export(init, style);
      if prev.error.None? {
        var last := pages[|pages| - 1];
        PageCounts(last, style);
        CountAppend(prev.writes, ExportPage(last, style).writes);
      }
    }
  }

  lemma UnderJoin(dir: FsPath, s: string)
    requires Under(dir, OutputRoot) && s != [] && s[0] != '/' && NoParentPart(s)
    ensures Under(Join(dir, s), OutputRoot)
  {
    assert (dir.parts + Segments(s))[..2] == dir.parts[..2];
    assert (dir.parts + Segments(s))[2..] == dir.parts[2..] + Segments(s);
    NoParentAppend(dir.parts[2..], Segments(s));
  }

  /**
   * The names a page's files are built from stay inside the output root:
   * its id, as text, neither starts with "/" nor has a ".." part, and
   * neither has its space id or its parent id.
   */
  predicate PlainNames(page: seq<(string, Json)>) {
    var id := Show(GetOr(page, "id", JNull));
    (id == [] || id[0] != '/') && NoParentPart(id) && PlainDirNames(page)
  }

  /** A page whose names are plain writes only inside the output root. */
  lemma PageUnderRoot(page: Json, style: string)
    requires page.JObj? ==> PlainNames(page.members)
    ensures forall k :: 0 <= k < |ExportPage(page, style).writes| ==> Under(ExportPage(page, style).writes[k].path, OutputRoot)
  {
    if !page.JObj? {
      PageNotDict(page, style);
    } else if BodyOf(page).Failure? {
      PageBadBody(page, style);
    } else if !Truthy(GetOr(page.members, "id", JNull)) {
      PageNoId(page, style);
    } else {
      PageWithIdUnderRoot(page, style);
    }
  }

  /** The case of `PageUnderRoot` where the page has a body and a truthy id. */
  lemma PageWithIdUnderRoot(page: Json, style: string)
    requires page.JObj? && BodyOf(page).Success? && Truthy(GetOr(page.members, "id", JNull))
    requires PlainNames(page.members)
    ensures forall k :: 0 <= k < |ExportPage(page, style).writes| ==> Under(ExportPage(page, style).writes[k].path, OutputRoot)
  {
    FilePathInside(page.members, ".json");
    FilePathInside(page.members, ".html");
    PageWritesAre(page, style);
  }

  /** A page with a body and a truthy id writes its `{id}.json` and perhaps its `{id}.html`, nothing else. */
  lemma PageWritesAre(page: Json, style: string)
    requires page.JObj? && BodyOf(page).Success? && Truthy(GetOr(page.members, "id", JNull))
    ensures forall k :: 0 <= k < |ExportPage(page, style).writes| ==>
      var path := ExportPage(page, style).writes[k].path;
      path == Join(OutputDir(page.members), Show(GetOr(page.members, "id", JNull)) + ".json") ||
      path == Join(OutputDir(page.members), Show(GetOr(page.members, "id", JNull)) + ".html")
  {
    if !Truthy(BodyOf(page).value) {
      PageNoBody(page, style);
    } else if TitleSafe(GetOr(page.members, "title", JStr(""))).Failure? {
      PageBadTitle(page, style);
    } else {
      PageWithDocument(page, style);
    }
  }

  /** The path of a page's `{id}.json` or `{id}.html` stays inside the root when its names are plain. */
  lemma FilePathInside(page: seq<(string, Json)>, ext: string)
    requires PlainNames(page)
    requires ext != [] && '/' !in ext && ext[0] != '/' && ext[|ext| - 1] != '.'
    ensures Under(Join(OutputDir(page), Show(GetOr(page, "id", JNull)) + ext), OutputRoot)
  {
    OutputDirInsideRoot(page);
    FileInside(OutputDir(page), Show(GetOr(page, "id", JNull)), ext);
  }

  /** `dir / f"{id}{ext}"` stays inside the root when `dir` does and `id` is plain. */
  lemma FileInside(dir: FsPath, id: string, ext: string)
    requires Under(dir, OutputRoot) && (id == [] || id[0] != '/') && NoParentPart(id)
    requires ext != [] && '/' !in ext && ext[0] != '/' && ext[|ext| - 1] != '.'
    ensures Under(Join(dir, id + ext), OutputRoot)
  {
    assert (id + ext)[0] != '/';
    SegmentsSuffix(id, ext);
    UnderJoin(dir, id + ext);
  }

  /** Every write stays inside the output root when every page's names are plain. */
  lemma {:induction false} WritesUnderRoot(pages: seq<Json>, style: string)
    requires forall k :: 0 <= k < |pages| ==> pages[k].JObj? ==> PlainNames(pages[k].members)
    ensures forall k :: 0 <= k < |Export(pages, style).writes| ==> Under(Export(pages, style).writes[k].path, OutputRoot)
    decreases |pages|
  {
    if pages != [] {
      var init := pages[..|pages| - 1];
      assert forall k :: 0 <= k < |init| ==> init[k] == pages[k];
      WritesUnderRoot(init, style);
      var prev := Export(init, style);
      if prev.error.None? {
        var p := ExportPage(pages[|pages| - 1], style);
        PageUnderRoot(pages[|pages| - 1], style);
        forall k | 0 <= k < |prev.writes + p.writes|
          ensures Under((prev.writes + p.writes)[k].path, OutputRoot)
        {
          if k >= |prev.writes| {
            assert (prev.writes + p.writes)[k] == p.writes[k - |prev.writes|];
          }
        }
      }
    }
  }

  /** One more page extends an export that has not raised. */
  lemma ExportGrows(pages: seq<Json>, i: nat, style: string)
    requires i < |pages| && Export(pages[..i], style).error.None?
    ensures Export(pages[..i + 1], style)
         == ExportRun(Export(pages[..i], style).writes + ExportPage(pages[i], style).writes, ExportPage(pages[i], style).error)
  {
    assert pages[..i + 1][..i] == pages[..i] && pages[..i + 1][i] == pages[i];
  }

  /** An export that raised on page `i` ends there. */
  lemma StopsAt(data: Json, pages: seq<Json>, i: nat, style: string)
    requires Iterate(data) == Success(pages) && i < |pages| && Export(pages[..i + 1], style).error.Some?
    ensures ExportAll(data, style) == Export(pages[..i + 1], style)
  {
    ErrorSticks(pages, i + 1, style);
  }

  // One page of the export loop, case by case, as the loop below takes them.

  /** The metadata write of a page with an id. */
  function MetaWrite(page: Json): Write
    requires page.JObj?
  {
    Write(Join(OutputDir(page.members), Show(GetOr(page.members, "id", JNull)) + ".json"), Meta(page))
  }

  /** The document write of a page with an id, a body and a title that can be escaped. */
  function HtmlWrite(page: Json, style: string): Write
    requires page.JObj? && BodyOf(page).Success?
    requires TitleSafe(GetOr(page.members, "title", JStr(""))).Success?
  {
    var id := GetOr(page.members, "id", JNull);
    var title := GetOr(page.members, "title", JStr(""));
    Write(Join(OutputDir(page.members), Show(id) + ".html"),
          Html(BuildHtmlDoc(id, title, BodyOf(page).value, page.members, style).value))
  }

  lemma PageNotDict(page: Json, style: string)
    requires !page.JObj?
    ensures ExportPage(page, style) == PageRun([], Some(AttributeError))
  {
  }

  lemma PageBadBody(page: Json, style: string)
    requires page.JObj? && BodyOf(page).Failure?
    ensures ExportPage(page, style) == PageRun([], Some(BodyOf(page).error))
  {
  }

  lemma PageNoId(page: Json, style: string)
    requires page.JObj? && BodyOf(page).Success? && !Truthy(GetOr(page.members, "id", JNull))
    ensures ExportPage(page, style) == PageRun([], None)
  {
  }

  lemma PageNoBody(page: Json, style: string)
    requires page.JObj? && BodyOf(page).Success? && Truthy(GetOr(page.members, "id", JNull))
    requires !Truthy(BodyOf(page).value)
    ensures ExportPage(page, style) == PageRun([MetaWrite(page)], None)
  {
  }

  lemma PageBadTitle(page: Json, style: string)
    requires page.JObj? && BodyOf(page).Success? && Truthy(GetOr(page.members, "id", JNull))
    requires Truthy(BodyOf(page).value)
    requires TitleSafe(GetOr(page.members, "title", JStr(""))).Failure?
    ensures ExportPage(page, style) == PageRun([MetaWrite(page)], Some(AttributeError))
  {
  }

  lemma PageWithDocument(page: Json, style: string)
    requires page.JObj? && BodyOf(page).Success? && Truthy(GetOr(page.members, "id", JNull))
    requires Truthy(BodyOf(page).value)
    requires TitleSafe(GetOr(page.members, "title", JStr(""))).Success?
    ensures ExportPage(page, style) == PageRun([MetaWrite(page), HtmlWrite(page, style)], None)
  {
  }

  /**
   * The body of the export loop for one page: the writes it issues, how
   * many of them are metadata and documents, and the error it raises, if any.
   */
  method WritePage(page: Json, style: string)
    returns (pageWrites: seq<Write>, json: nat, html: nat, error: Option<PyError>)
    ensures PageRun(pageWrites, error) == ExportPage(page, style)
    ensures json == CountMeta(pageWrites) && html == CountHtml(pageWrites)
  {
    pageWrites, json, html, error := [], 0, 0, None;
    var pageId := Get(page, "id", JNull);
    if pageId.Failure? {
      error := Some(pageId.error);
      PageNotDict(page, style);
      return;
    }
    var title := GetOr(page.members, "title", JStr(""));
    var bodyHtml := BodyOf(page);
    if bodyHtml.Failure? {
      error := Some(bodyHtml.error);
      PageBadBody(page, style);
      return;
    }
    if !Truthy(pageId.value) {
      PageNoId(page, style);
      return;
    }
    var outDir := OutputDir(page.members);
    var meta := Write(Join(outDir, Show(pageId.value) + ".json"), Meta(page));
    assert meta == MetaWrite(page);
    pageWrites := [meta];
    json := 1;
    assert CountMeta(pageWrites) == 1 && CountHtml(pageWrites) == 0 by {
      assert pageWrites[..0] == [];
    }
    if !Truthy(bodyHtml.value) {
      PageNoBody(page, style);
      return;
    }
    var htmlDoc := BuildHtmlDoc(pageId.value, title, bodyHtml.value, page.members, style);
    if htmlDoc.Failure? {
      error := Some(htmlDoc.error);
      PageBadTitle(page, style);
      return;
    }
    var doc := Write(Join(outDir, Show(pageId.value) + ".html"), Html(htmlDoc.value));
    assert doc == HtmlWrite(page, style);
    PageWithDocument(page, style);
    pageWrites := pageWrites + [doc];
    html := 1;
    assert pageWrites[..1] == [meta];
  }

  /**
   * The export loop: the writes it issues in order, the two counters, and
   * the error that ended it early, if any.
   */
  method ExportPages(data: Json, style: string)
    returns (writes: seq<Write>, htmlCount: nat, jsonCount: nat, error: Option<PyError>)
    ensures ExportRun(writes, error) == ExportAll(data, style)
    ensures htmlCount == CountHtml(writes) && jsonCount == CountMeta(writes)
  {
    writes, htmlCount, jsonCount, error := [], 0, 0, None;
    var items := Iterate(data);
    if items.Failure? {
      error := Some(items.error);
      return;
    }
    var pages := items.value;
    for i := 0 to |pages|
      invariant Export(pages[..i], style) == ExportRun(writes, None)
      invariant htmlCount == CountHtml(writes) && jsonCount == CountMeta(writes)
    {
      var pageWrites, json, html, pageError := WritePage(pages[i], style);
      CountAppend(writes, pageWrites);
      ExportGrows(pages, i, style);
      writes := writes + pageWrites;
      jsonCount := jsonCount + json;
      htmlCount := htmlCount + html;
      if pageError.Some? {
        error := pageError;
        StopsAt(data, pages, i, style);
        return;
      }
    }
    assert pages[..|pages|] == pages;
  }
}
