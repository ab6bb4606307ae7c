/**
 * `escapeHtml` of the front end: one left-to-right pass that replaces each of
 * `& < > " '` by its character reference and keeps every other character.
 */
module HtmlEscape {

  /** The characters `escapeHtml` rewrites. */
  predicate IsSpecial(c: char) {
    c == '&' || c == '<' || c == '>' || c == '"' || c == '\''
  }

  /** The replacement text of one character. */
  function EscapeChar(c: char): (r: string)
    ensures !IsSpecial(c) ==> r == [c]
    ensures IsSpecial(c) ==> |r| >= 4 && r[0] == '&'
  {
    match c
    case '&' => "&amp;"
    case '<' => "&lt;"
    case '>' => "&gt;"
    case '"' => "&quot;"
    case '\'' => "&#39;"
    case _ => [c]
  }

  /** `String(s).replace(/[&<>"']/g, ...)`: every match replaced, the rest kept in order. */
  function EscapeAll(s: string): (r: string)
    ensures |r| >= |s|
    ensures forall i :: 0 <= i < |r| ==> r[i] != '<' && r[i] != '>' && r[i] != '"' && r[i] != '\''
  {
    if s == [] then [] else EscapeChar(s[0]) + EscapeAll(s[1..])
  }

  /** `escapeHtml(s)` on a string: a falsy (empty) string gives `''`. */
  function EscapeHtml(s: string): (r: string)
    ensures r == "" <==> s == ""
    ensures forall i :: 0 <= i < |r| ==> r[i] != '<' && r[i] != '>' && r[i] != '"' && r[i] != '\''
  {
    if s == "" then "" else EscapeAll(s)
  }

  /** `r` begins with `p`. */
  predicate StartsWith(r: string, p: string) {
    |p| <= |r| && r[..|p|] == p
  }

  /** Decoding of the five character references `escapeHtml` produces; any other character is kept. */
  function Unescape(r: string): string {
    if r == [] then []
    else if r[0] != '&' then [r[0]] + Unescape(r[1..])
    else if StartsWith(r, "&amp;") then "&" + Unescape(r[5..])
    else if StartsWith(r, "&lt;") then "<" + Unescape(r[4..])
    else if StartsWith(r, "&gt;") then ">" + Unescape(r[4..])
    else if StartsWith(r, "&quot;") then "\"" + Unescape(r[6..])
    else if StartsWith(r, "&#39;") then "'" + Unescape(r[5..])
    else [r[0]] + Unescape(r[1..])
  }

  /** Decoding a character reference followed by more text. */
  lemma UnescapeReference(c: char, rest: string)
    requires IsSpecial(c)
    ensures Unescape(EscapeChar(c) + rest) == [c] + Unescape(rest)
  {
    var e := EscapeChar(c);
    var r := e + rest;
    assert r[..|e|] == e && r[|e|..] == rest;
    assert r[1] == e[1];
    if c == '&' {
      assert StartsWith(r, "&amp;");
    } else if c == '<' {
      assert !StartsWith(r, "&amp;");
      assert StartsWith(r, "&lt;");
    } else if c == '>' {
      assert !StartsWith(r, "&amp;") && !StartsWith(r, "&lt;");
      assert StartsWith(r, "&gt;");
    } else if c == '"' {
      assert !StartsWith(r, "&amp;") && !StartsWith(r, "&lt;") && !StartsWith(r, "&gt;");
      assert StartsWith(r, "&quot;");
    } else {
      assert !StartsWith(r, "&amp;") && !StartsWith(r, "&lt;") && !StartsWith(r, "&gt;") && !StartsWith(r, "&quot;");
      assert StartsWith(r, "&#39;");
    }
  }

  lemma UnescapeEscapeChar(c: char, rest: string)
    ensures Unescape(EscapeChar(c) + rest) == [c] + Unescape(rest)
  {
    if IsSpecial(c) {
      UnescapeReference(c, rest);
    } else {
      var r := EscapeChar(c) + rest;
      assert r[0] == c && r[1..] == rest;
    }
  }

  /** Decoding undoes escaping: nothing is lost or reordered. */
  lemma {:induction false} UnescapeEscapeAll(s: string)
    ensures Unescape(EscapeAll(s)) == s
  {
    if s != [] {
      UnescapeEscapeChar(s[0], EscapeAll(s[1..]));
      UnescapeEscapeAll(s[1..]);
    }
  }

  /** `escapeHtml` is reversed by decoding the character references. */
  lemma EscapeHtmlRoundTrip(s: string)
    ensures Unescape(EscapeHtml(s)) == s
  {
    UnescapeEscapeAll(s);
  }

  /** A string without any of the five special characters is returned unchanged. */
  lemma {:induction false} EscapeKeepsPlainText(s: string)
    requires forall i :: 0 <= i < |s| ==> !IsSpecial(s[i])
    ensures EscapeHtml(s) == s
  {
    if s != [] {
      EscapeKeepsPlainText(s[1..]);
      assert EscapeAll(s) == [s[0]] + EscapeAll(s[1..]);
      assert s[1..] != [] ==> EscapeHtml(s[1..]) == EscapeAll(s[1..]);
    }
  }
}
