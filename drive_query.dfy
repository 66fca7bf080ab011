/** The Google Drive query strings the adapter sends to `files.list`: the
    MIME-type allow-list clause, the name clause of a search, the search query
    and the query listing one folder's children.

    The partner of the builders is a parser for the same query language:
    `ParseSearchQuery` and `ParseFolderQuery` read back what was asked for,
    and the round-trip lemmas say the builders lose nothing. In that language
    a value sits between single quotes, and a quote or backslash inside it is
    escaped with a backslash. */
module DriveQuery {

  import opened Wrappers

  const MimeTypeText: string := "text/plain"
  const MimeTypeCsv: string := "text/csv"
  const MimeTypeEpub: string := "application/epub+zip"
  const MimeTypePdf: string := "application/pdf"
  const MimeTypeMarkdown: string := "text/markdown"
  const MimeTypeGoogleDoc: string := "application/vnd.google-apps.document"
  const MimeTypeGoogleSheets: string := "application/vnd.google-apps.spreadsheet"
  const MimeTypeGoogleSlides: string := "application/vnd.google-apps.presentation"
  const MimeTypeDocx: string := DocxTypeHead + DocxTypeTail
  const DocxTypeHead: string := "application/vnd.openxmlformats-"
  const DocxTypeTail: string := "officedocument.wordprocessingml.document"

  /** The allow-list, in the order the query lists it. */
  const SupportedMimeTypes: seq<string> := [
    MimeTypeText, MimeTypeCsv, MimeTypeEpub, MimeTypePdf, MimeTypeMarkdown,
    MimeTypeGoogleDoc, MimeTypeGoogleSheets, MimeTypeGoogleSlides, MimeTypeDocx
  ]

  const FolderMimeType: string := "application/vnd.google-apps.folder"

  const MimeTypePrefix: string := "mimeType='"
  const NamePrefix: string := "name contains '"
  const MimeTypeSeparator: string := " or "
  const NameSeparator: string := " AND "
  const Conjunction: string := ") and ("
  const SearchTrashed: string := ") and trashed = false"
  const InParents: string := " in parents and ("
  const FolderTrashed: string := ") and trashed=false"

  // ---------------------------------------------------------------------------
  // Strings

  predicate StartsWith(s: string, p: string) {
    |p| <= |s| && s[..|p|] == p
  }

  lemma StartsWithConcat(p: string, s: string)
    ensures StartsWith(p + s, p) && (p + s)[|p|..] == s
  {
    assert (p + s)[..|p|] == p;
  }

  lemma ConcatAssoc(a: string, b: string, c: string)
    ensures a + b + c == a + (b + c)
  {
  }

  lemma ConcatRight(a: string, b: string, c: string, d: string)
    ensures a + b + c + d == a + (b + (c + d))
  {
  }

  /** `Array.prototype.join`. */
  function Join(parts: seq<string>, sep: string): string {
    if |parts| == 0 then ""
    else if |parts| == 1 then parts[0]
    else parts[0] + sep + Join(parts[1..], sep)
  }

  /** A value that needs no escaping between quotes. */
  predicate Plain(v: string) {
    '\'' !in v && '\\' !in v
  }

  /** A value made safe to sit between quotes: `'` and `\` get a backslash. */
  function Escape(v: string): (r: string)
    ensures |v| <= |r|
  {
    if v == [] then []
    else (if v[0] == '\'' || v[0] == '\\' then ['\\', v[0]] else [v[0]]) + Escape(v[1..])
  }

  function EscapeAll(vs: seq<string>): (r: seq<string>)
    ensures |r| == |vs|
    ensures forall i :: 0 <= i < |vs| ==> r[i] == Escape(vs[i])
  {
    seq(|vs|, i requires 0 <= i < |vs| => Escape(vs[i]))
  }

  /** `field op '<value>'` for each value, in order. */
  function Clauses(prefix: string, values: seq<string>): (r: seq<string>)
    ensures |r| == |values|
    ensures forall i :: 0 <= i < |values| ==> r[i] == prefix + values[i] + "'"
  {
    seq(|values|, i requires 0 <= i < |values| => prefix + values[i] + "'")
  }

  // ---------------------------------------------------------------------------
  // The builders

  /** The MIME types a query allows: the allow-list, then the folder type when asked for. */
  function MimeTypes(includeFolders: bool): seq<string> {
    SupportedMimeTypes + (if includeFolders then [FolderMimeType] else [])
  }

  /** `getMimeTypeQuery`. */
  function MimeTypeQuery(includeFolders: bool): string {
    Join(Clauses(MimeTypePrefix, MimeTypes(includeFolders)), MimeTypeSeparator)
  }

  /** `getNamesQuery`, as written: each name is put between the quotes as it is. */
  function NamesQuery(names: seq<string>): string {
    Join(Clauses(NamePrefix, names), NameSeparator)
  }

  /** The query `search` sends, as written: the name clause only when there are terms. */
  function SearchQuery(terms: seq<string>): string {
    if |terms| > 0 then "(" + NamesQuery(terms) + Conjunction + MimeTypeQuery(true) + SearchTrashed
    else "(" + MimeTypeQuery(true) + SearchTrashed
  }

  /** The search query with each term escaped, which is what the query
      language asks of a value. */
  function EscapedSearchQuery(terms: seq<string>): string {
    SearchQuery(EscapeAll(terms))
  }

  /** The query `listFilesRecursive` sends for one folder. */
  function FolderQuery(folderId: string): string {
    "'" + folderId + "'" + InParents + MimeTypeQuery(true) + FolderTrashed
  }

  // ---------------------------------------------------------------------------
  // The parser

  /** Reads a quoted value's body up to its closing quote, undoing escapes;
      returns the value and what follows the closing quote. */
  function ReadValue(s: string): (r: Option<(string, string)>)
    ensures r.Some? ==> |r.value.1| < |s|
  {
    if s == [] then None
    else if s[0] == '\'' then Some(([], s[1..]))
    else if s[0] == '\\' then
      if |s| < 2 then None
      else match ReadValue(s[2..])
        case None => None
        case Some((v, rest)) => Some(([s[1]] + v, rest))
    else match ReadValue(s[1..])
      case None => None
      case Some((v, rest)) => Some(([s[0]] + v, rest))
  }

  /** Reads clauses `prefix value'` separated by `sep`; returns their values
      and the unread rest. */
  function ParseClauses(prefix: string, sep: string, s: string): (r: Option<(seq<string>, string)>)
    ensures r.Some? ==> |r.value.0| > 0
    decreases |s|
  {
    if !StartsWith(s, prefix) then None
    else match ReadValue(s[|prefix|..])
      case None => None
      case Some((v, rest)) =>
        if StartsWith(rest, sep) then
          match ParseClauses(prefix, sep, rest[|sep|..])
          case None => None
          case Some((vs, tail)) => Some(([v] + vs, tail))
        else Some(([v], rest))
  }

  /** Reads a search query back into its name terms (none when there is no
      name clause) and its allowed MIME types. */
  function ParseSearchQuery(q: string): Option<(seq<string>, seq<string>)> {
    if !StartsWith(q, "(") then None
    else
      var body := q[1..];
      if StartsWith(body, NamePrefix) then
        match ParseClauses(NamePrefix, NameSeparator, body)
        case None => None
        case Some((names, rest)) =>
          if !StartsWith(rest, Conjunction) then None
          else match ParseClauses(MimeTypePrefix, MimeTypeSeparator, rest[|Conjunction|..])
            case None => None
            case Some((mimes, tail)) => if tail == SearchTrashed then Some((names, mimes)) else None
      else
        match ParseClauses(MimeTypePrefix, MimeTypeSeparator, body)
        case None => None
        case Some((mimes, tail)) => if tail == SearchTrashed then Some(([], mimes)) else None
  }

  /** Reads a folder query back into the folder id and the allowed MIME types. */
  function ParseFolderQuery(q: string): Option<(string, seq<string>)> {
    if !StartsWith(q, "'") then None
    else match ReadValue(q[1..])
      case None => None
      case Some((id, rest)) =>
        if !StartsWith(rest, InParents) then None
        else match ParseClauses(MimeTypePrefix, MimeTypeSeparator, rest[|InParents|..])
          case None => None
          case Some((mimes, tail)) => if tail == FolderTrashed then Some((id, mimes)) else None
  }

  // ---------------------------------------------------------------------------
  // Round trips

  lemma EscapePlain(v: string)
    requires Plain(v)
    ensures Escape(v) == v
  {
    if v != [] {
      assert v[0] in v;
      assert forall c :: c in v[1..] ==> c in v;
      EscapePlain(v[1..]);
      assert [v[0]] + v[1..] == v;
    }
  }

  lemma EscapeAllPlain(vs: seq<string>)
    requires forall i :: 0 <= i < |vs| ==> Plain(vs[i])
    ensures EscapeAll(vs) == vs
  {
    forall i | 0 <= i < |vs| ensures EscapeAll(vs)[i] == vs[i] {
      EscapePlain(vs[i]);
    }
  }

  /** Reading an escaped value back gives the value and exactly what follows
      its closing quote, whatever characters the value holds. */
  lemma {:induction false} ReadEscaped(v: string, tail: string)
    ensures ReadValue(Escape(v) + "'" + tail) == Some((v, tail))
  {
    var s := Escape(v) + "'" + tail;
    if v == [] {
      assert s == "'" + tail;
      assert s[1..] == tail;
    } else {
      var rest := Escape(v[1..]) + "'" + tail;
      ReadEscaped(v[1..], tail);
      if v[0] == '\'' || v[0] == '\\' {
        assert s == ['\\', v[0]] + rest;
        assert s[2..] == rest;
      } else {
        assert s == [v[0]] + rest;
        assert s[1..] == rest;
      }
      assert [v[0]] + v[1..] == v;
    }
  }

  /** One rendered clause, followed by anything. */
  lemma ReadClause(prefix: string, w: string, v: string, after: string)
    requires w == Escape(v)
    ensures var s := prefix + w + "'" + after;
            && StartsWith(s, prefix)
            && ReadValue(s[|prefix|..]) == Some((v, after))
  {
    var s := prefix + w + "'" + after;
    assert s[..|prefix|] == prefix;
    assert s[|prefix|..] == w + "'" + after;
    ReadEscaped(v, after);
  }

  lemma ClausesTail(prefix: string, values: seq<string>)
    requires |values| > 0
    ensures Clauses(prefix, values)[1..] == Clauses(prefix, values[1..])
  {
  }

  /** Rendering escaped values as clauses and parsing them back gives the
      values and the text after them, provided that text does not itself
      begin with the separator. */
  lemma {:induction false} ParseRendered(prefix: string, sep: string, vs: seq<string>, tail: string)
    requires |vs| > 0
    requires !StartsWith(tail, sep)
    ensures ParseClauses(prefix, sep, Join(Clauses(prefix, EscapeAll(vs)), sep) + tail) == Some((vs, tail))
    decreases |vs|
  {
    var ws := EscapeAll(vs);
    var cs := Clauses(prefix, ws);
    var s := Join(cs, sep) + tail;
    if |vs| == 1 {
      assert s == prefix + ws[0] + "'" + tail;
      ReadClause(prefix, ws[0], vs[0], tail);
      assert [vs[0]] == vs;
    } else {
      var more := Join(Clauses(prefix, EscapeAll(vs[1..])), sep) + tail;
      assert EscapeAll(vs)[1..] == EscapeAll(vs[1..]);
      ClausesTail(prefix, ws);
      assert s == prefix + ws[0] + "'" + (sep + more);
      ReadClause(prefix, ws[0], vs[0], sep + more);
      assert (sep + more)[..|sep|] == sep;
      assert (sep + more)[|sep|..] == more;
      ParseRendered(prefix, sep, vs[1..], tail);
      assert [vs[0]] + vs[1..] == vs;
    }
  }

  /** The same, for values that need no escaping. */
  lemma ParseRenderedPlain(prefix: string, sep: string, vs: seq<string>, tail: string)
    requires |vs| > 0 && forall i :: 0 <= i < |vs| ==> Plain(vs[i])
    requires !StartsWith(tail, sep)
    ensures ParseClauses(prefix, sep, Join(Clauses(prefix, vs), sep) + tail) == Some((vs, tail))
  {
    EscapeAllPlain(vs);
    ParseRendered(prefix, sep, vs, tail);
  }

  // One lemma per long literal keeps each proof small.

  lemma TextTypesArePlain()
    ensures Plain(MimeTypeText) && Plain(MimeTypeCsv) && Plain(MimeTypeMarkdown)
  {
  }

  lemma DocumentTypesArePlain()
    ensures Plain(MimeTypeEpub) && Plain(MimeTypePdf)
  {
  }

  lemma PlainConcat(a: string, b: string)
    requires Plain(a) && Plain(b)
    ensures Plain(a + b)
  {
  }

  lemma DocxTypeHeadIsPlain()
    ensures Plain(DocxTypeHead)
  {
  }

  lemma DocxTypeTailIsPlain()
    ensures Plain(DocxTypeTail)
  {
  }

  lemma GoogleDocTypeIsPlain()
    ensures Plain(MimeTypeGoogleDoc)
  {
  }

  lemma GoogleSheetsTypeIsPlain()
    ensures Plain(MimeTypeGoogleSheets)
  {
  }

  lemma GoogleSlidesTypeIsPlain()
    ensures Plain(MimeTypeGoogleSlides)
  {
  }

  lemma FolderTypeIsPlain()
    ensures Plain(FolderMimeType)
  {
  }

  /** No allowed MIME type needs escaping, and there is at least one. */
  lemma MimeTypesArePlain(includeFolders: bool)
    ensures |MimeTypes(includeFolders)| > 0
    ensures forall i :: 0 <= i < |MimeTypes(includeFolders)| ==> Plain(MimeTypes(includeFolders)[i])
  {
    TextTypesArePlain();
    DocumentTypesArePlain();
    DocxTypeHeadIsPlain();
    DocxTypeTailIsPlain();
    PlainConcat(DocxTypeHead, DocxTypeTail);
    GoogleDocTypeIsPlain();
    GoogleSheetsTypeIsPlain();
    GoogleSlidesTypeIsPlain();
    FolderTypeIsPlain();
  }

  /** The allowed MIME types are the allow-list in order, with the folder type
      appended last exactly when folders are included. */
  lemma MimeTypesShape(includeFolders: bool)
    ensures var ts := MimeTypes(includeFolders);
            && ts[..|SupportedMimeTypes|] == SupportedMimeTypes
            && |ts| == |SupportedMimeTypes| + (if includeFolders then 1 else 0)
            && (FolderMimeType in ts <==> includeFolders)
            && forall i :: 0 <= i < |ts| ==> Plain(ts[i])
  {
    var ts := MimeTypes(includeFolders);
    MimeTypesArePlain(includeFolders);
    assert FolderMimeType !in SupportedMimeTypes;
    if includeFolders {
      assert ts[|SupportedMimeTypes|] == FolderMimeType;
    } else {
      assert ts == SupportedMimeTypes;
    }
  }

  /** `getMimeTypeQuery(b)` has one `mimeType='T'` disjunct per allowed type,
      in allow-list order, joined by " or ", and nothing else. */
  lemma MimeTypeQueryReadsBack(includeFolders: bool)
    ensures ParseClauses(MimeTypePrefix, MimeTypeSeparator, MimeTypeQuery(includeFolders))
              == Some((MimeTypes(includeFolders), ""))
  {
    MimeTypesArePlain(includeFolders);
    ParseRenderedPlain(MimeTypePrefix, MimeTypeSeparator, MimeTypes(includeFolders), "");
    assert MimeTypeQuery(includeFolders) + "" == MimeTypeQuery(includeFolders);
  }

  /** `getNamesQuery` has one `name contains 'n'` clause per name, joined by
      " AND ", for names that need no escaping; no names give no text. */
  lemma NamesQueryReadsBack(names: seq<string>)
    requires forall i :: 0 <= i < |names| ==> Plain(names[i])
    ensures names == [] ==> NamesQuery(names) == ""
    ensures names != [] ==> ParseClauses(NamePrefix, NameSeparator, NamesQuery(names)) == Some((names, ""))
  {
    if names != [] {
      ParseRenderedPlain(NamePrefix, NameSeparator, names, "");
      assert NamesQuery(names) + "" == NamesQuery(names);
    }
  }

  /** The allowed-types clause reads back as the allowed types, whatever
      closing text follows it. */
  lemma MimeTypeQueryBefore(includeFolders: bool, tail: string)
    requires |tail| > 0 && tail[0] == ')'
    ensures ParseClauses(MimeTypePrefix, MimeTypeSeparator, MimeTypeQuery(includeFolders) + tail)
              == Some((MimeTypes(includeFolders), tail))
  {
    var ts := MimeTypes(includeFolders);
    MimeTypesArePlain(includeFolders);
    ClausesBeforeClose(ts, tail);
    assert MimeTypeQuery(includeFolders) == Join(Clauses(MimeTypePrefix, ts), MimeTypeSeparator);
  }

  lemma ClausesBeforeClose(ts: seq<string>, tail: string)
    requires |tail| > 0 && tail[0] == ')'
    requires |ts| > 0 && forall i :: 0 <= i < |ts| ==> Plain(ts[i])
    ensures ParseClauses(MimeTypePrefix, MimeTypeSeparator, Join(Clauses(MimeTypePrefix, ts), MimeTypeSeparator) + tail)
              == Some((ts, tail))
  {
    ParseRenderedPlain(MimeTypePrefix, MimeTypeSeparator, ts, tail);
  }

  /** A search query with a name clause of escaped words, over any
      allowed-types clause `m` that reads back as `mimes`. */
  lemma ParseSearchWithNames(ws: seq<string>, terms: seq<string>, m: string, mimes: seq<string>)
    requires |terms| > 0 && ws == EscapeAll(terms)
    requires ParseClauses(MimeTypePrefix, MimeTypeSeparator, m + SearchTrashed) == Some((mimes, SearchTrashed))
    ensures ParseSearchQuery("(" + NamesQuery(ws) + Conjunction + m + SearchTrashed) == Some((terms, mimes))
  {
    var rest := m + SearchTrashed;
    NamesBefore(ws, terms, rest);
    SearchQueryParts(NamesQuery(ws), terms, rest, mimes);
    ConcatRight("(" + NamesQuery(ws), Conjunction, m, SearchTrashed);
    ConcatAssoc("(", NamesQuery(ws), Conjunction + rest);
  }

  /** The name clause reads back as the terms, followed by the conjunction. */
  lemma NamesBefore(ws: seq<string>, terms: seq<string>, rest: string)
    requires |terms| > 0 && ws == EscapeAll(terms)
    ensures ParseClauses(NamePrefix, NameSeparator, NamesQuery(ws) + (Conjunction + rest)) == Some((terms, Conjunction + rest))
  {
    var after := Conjunction + rest;
    assert !StartsWith(after, NameSeparator) by { assert after[0] == Conjunction[0]; }
    ParseRendered(NamePrefix, NameSeparator, terms, after);
  }

  /** How `ParseSearchQuery` reads a query with a name clause `n`. */
  lemma SearchQueryParts(n: string, names: seq<string>, rest: string, mimes: seq<string>)
    requires ParseClauses(NamePrefix, NameSeparator, n + (Conjunction + rest)) == Some((names, Conjunction + rest))
    requires ParseClauses(MimeTypePrefix, MimeTypeSeparator, rest) == Some((mimes, SearchTrashed))
    ensures ParseSearchQuery("(" + (n + (Conjunction + rest))) == Some((names, mimes))
  {
    var body := n + (Conjunction + rest);
    StartsWithConcat("(", body);
    StartsWithConcat(Conjunction, rest);
    NameClauseStart(body);
  }

  lemma NameClauseStart(s: string)
    requires ParseClauses(NamePrefix, NameSeparator, s).Some?
    ensures StartsWith(s, NamePrefix)
  {
  }

  /** A search query without a name clause, over any allowed-types clause
      `m` that reads back as `mimes`. */
  lemma ParseSearchWithoutNames(m: string, mimes: seq<string>)
    requires ParseClauses(MimeTypePrefix, MimeTypeSeparator, m + SearchTrashed) == Some((mimes, SearchTrashed))
    ensures ParseSearchQuery("(" + m + SearchTrashed) == Some(([], mimes))
  {
    var body := m + SearchTrashed;
    assert "(" + m + SearchTrashed == "(" + body;
    StartsWithConcat("(", body);
    MimeClauseIsNoNameClause(body);
  }

  lemma MimeClauseIsNoNameClause(s: string)
    requires ParseClauses(MimeTypePrefix, MimeTypeSeparator, s).Some?
    ensures !StartsWith(s, NamePrefix)
  {
    assert s[1] == MimeTypePrefix[1] != NamePrefix[1];
  }

  /** Parsing a search query whose name clause holds already-escaped words. */
  lemma ParseSearchOf(ws: seq<string>, terms: seq<string>)
    requires ws == EscapeAll(terms)
    ensures ParseSearchQuery(SearchQuery(ws)) == Some((terms, MimeTypes(true)))
  {
    assert SearchTrashed[0] == ')';
    MimeTypeQueryBefore(true, SearchTrashed);
    if |ws| > 0 {
      ParseSearchWithNames(ws, terms, MimeTypeQuery(true), MimeTypes(true));
    } else {
      ParseSearchWithoutNames(MimeTypeQuery(true), MimeTypes(true));
    }
  }

  /** The search query asks for exactly the given terms, and for the allow-list
      plus folders: the name clause is present exactly when there are terms.
      For the query as written this holds for terms that need no escaping. */
  lemma SearchQueryReadsBack(terms: seq<string>)
    requires forall i :: 0 <= i < |terms| ==> Plain(terms[i])
    ensures ParseSearchQuery(SearchQuery(terms)) == Some((terms, MimeTypes(true)))
  {
    EscapeAllPlain(terms);
    ParseSearchOf(terms, terms);
  }

  /** With escaping, the search query asks for exactly the given terms,
      whatever characters they hold. */
  lemma EscapedSearchQueryReadsBack(terms: seq<string>)
    ensures ParseSearchQuery(EscapedSearchQuery(terms)) == Some((terms, MimeTypes(true)))
  {
    ParseSearchOf(EscapeAll(terms), terms);
  }

  /** Different term lists give different escaped queries. */
  lemma EscapedSearchQueryInjective(a: seq<string>, b: seq<string>)
    requires EscapedSearchQuery(a) == EscapedSearchQuery(b)
    ensures a == b
  {
    EscapedSearchQueryReadsBack(a);
    EscapedSearchQueryReadsBack(b);
  }

  /** As written, one term holding a quote produces the same query as two
      other terms: Drive reads the term `a' AND name contains 'b` as the
      two clauses for `a` and `b`. */
  lemma UnescapedTermsCollide()
    ensures SearchQuery(["a' AND name contains 'b"]) == SearchQuery(["a", "b"])
    ensures ["a' AND name contains 'b"] != ["a", "b"]
  {
    UnescapedNamesCollide();
    SameNameClause(["a' AND name contains 'b"], ["a", "b"]);
  }

  lemma UnescapedNamesCollide()
    ensures NamesQuery(["a' AND name contains 'b"]) == NamesQuery(["a", "b"])
  {
    OneNameClause("a' AND name contains 'b");
    TwoNameClauses("a", "b");
    assert NamePrefix + "a' AND name contains 'b" + "'" == NamePrefix + "a" + "'" + NameSeparator + (NamePrefix + "b" + "'");
  }

  lemma OneNameClause(x: string)
    ensures NamesQuery([x]) == NamePrefix + x + "'"
  {
  }

  lemma TwoNameClauses(x: string, y: string)
    ensures NamesQuery([x, y]) == NamePrefix + x + "'" + NameSeparator + (NamePrefix + y + "'")
  {
    var cs := Clauses(NamePrefix, [x, y]);
    assert cs[0] == NamePrefix + x + "'";
    assert cs[1..] == [NamePrefix + y + "'"];
    assert Join(cs[1..], NameSeparator) == NamePrefix + y + "'";
  }

  /** The search query depends on the terms only through their name clause. */
  lemma SameNameClause(a: seq<string>, b: seq<string>)
    requires |a| > 0 && |b| > 0 && NamesQuery(a) == NamesQuery(b)
    ensures SearchQuery(a) == SearchQuery(b)
  {
  }

  /** The folder query asks for the children of exactly the given folder,
      with the allow-list plus folders, for ids that need no escaping
      (Drive's file ids are letters, digits, `-` and `_`). */
  lemma FolderQueryReadsBack(folderId: string)
    requires Plain(folderId)
    ensures ParseFolderQuery(FolderQuery(folderId)) == Some((folderId, MimeTypes(true)))
  {
    assert FolderTrashed[0] == ')';
    MimeTypeQueryBefore(true, FolderTrashed);
    ParseFolderOver(folderId, MimeTypeQuery(true), MimeTypes(true));
  }

  /** A folder query over any allowed-types clause `m` that reads back as `mimes`. */
  lemma ParseFolderOver(folderId: string, m: string, mimes: seq<string>)
    requires Plain(folderId)
    requires ParseClauses(MimeTypePrefix, MimeTypeSeparator, m + FolderTrashed) == Some((mimes, FolderTrashed))
    ensures ParseFolderQuery("'" + folderId + "'" + InParents + m + FolderTrashed) == Some((folderId, mimes))
  {
    var rest := InParents + (m + FolderTrashed);
    ConcatRight("'" + folderId + "'", InParents, m, FolderTrashed);
    ConcatAssoc("'", folderId, "'");
    ConcatAssoc("'", folderId + "'", rest);
    EscapePlain(folderId);
    ReadEscaped(folderId, rest);
    FolderQueryParts(folderId + "'" + rest, folderId, m + FolderTrashed, mimes);
  }

  /** How `ParseFolderQuery` reads a query whose quoted id reads back as `folderId`. */
  lemma FolderQueryParts(body: string, folderId: string, after: string, mimes: seq<string>)
    requires ReadValue(body) == Some((folderId, InParents + after))
    requires ParseClauses(MimeTypePrefix, MimeTypeSeparator, after) == Some((mimes, FolderTrashed))
    ensures ParseFolderQuery("'" + body) == Some((folderId, mimes))
  {
    StartsWithConcat("'", body);
    StartsWithConcat(InParents, after);
  }
}
