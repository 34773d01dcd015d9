/** HTML escaping of plain text, standing in for the `escape` function of the
    markupsafe library that tdom relies on. Each HTML metacharacter is replaced
    by a character reference; every other character is kept as it is. */
module Escaping {

  /** The characters that `escape` replaces. */
  predicate IsMeta(c: char) {
    c == '&' || c == '<' || c == '>' || c == '"' || c == '\''
  }

  /** No character of `s` can open or close a tag or an attribute value.
      (`&` may still occur: escaped text uses it to start a reference.) */
  predicate NoRawMarkup(s: string) {
    forall k :: 0 <= k < |s| ==> s[k] != '<' && s[k] != '>' && s[k] != '"' && s[k] != '\''
  }

  function EscapeChar(c: char): (r: string)
    ensures NoRawMarkup(r)
    ensures IsMeta(c) ==> |r| > 1 && r[0] == '&'
    ensures !IsMeta(c) ==> r == [c]
  {
    match c
    case '&' => "&amp;"
    case '<' => "&lt;"
    case '>' => "&gt;"
    case '"' => "&#34;"
    case '\'' => "&#39;"
    case _ => [c]
  }

  /** Escapes every character of `s`, left to right. */
  function Escape(s: string): (r: string)
    ensures NoRawMarkup(r)
    ensures |r| >= |s|
    decreases |s|
  {
    if s == [] then [] else EscapeChar(s[0]) + Escape(s[1..])
  }

  /** The inverse of `Escape`: turns the five references back into characters. */
  function Unescape(s: string): string
    decreases |s|
  {
    if s == [] then []
    else if |s| >= 5 && s[..5] == "&amp;" then "&" + Unescape(s[5..])
    else if |s| >= 4 && s[..4] == "&lt;" then "<" + Unescape(s[4..])
    else if |s| >= 4 && s[..4] == "&gt;" then ">" + Unescape(s[4..])
    else if |s| >= 5 && s[..5] == "&#34;" then "\"" + Unescape(s[5..])
    else if |s| >= 5 && s[..5] == "&#39;" then "'" + Unescape(s[5..])
    else [s[0]] + Unescape(s[1..])
  }

  /** A reference `r` at the front of `r + t` is decoded to `c`. */
  lemma UnescapeReference(r: string, c: char, t: string)
    requires r in ["&amp;", "&lt;", "&gt;", "&#34;", "&#39;"]
    requires c == (if r == "&amp;" then '&' else if r == "&lt;" then '<' else if r == "&gt;" then '>'
                   else if r == "&#34;" then '"' else '\'')
    ensures Unescape(r + t) == [c] + Unescape(t)
  {
    var s := r + t;
    assert s[..|r|] == r;
    assert s[|r|..] == t;
    assert s[1] == r[1];
    if |r| == 5 {
      assert s[..5] == r;
    } else {
      assert s[..4] == r;
    }
  }

  lemma UnescapeAfterEscapeChar(c: char, t: string)
    ensures Unescape(EscapeChar(c) + t) == [c] + Unescape(t)
  {
    match c
    case '&' => UnescapeReference("&amp;", c, t);
    case '<' => UnescapeReference("&lt;", c, t);
    case '>' => UnescapeReference("&gt;", c, t);
    case '"' => UnescapeReference("&#34;", c, t);
    case '\'' => UnescapeReference("&#39;", c, t);
    case _ =>
      var s := [c] + t;
      assert s[0] == c && s[1..] == t;
  }

  /** Escaping loses no information: the original text is recovered. */
  lemma {:induction false} EscapeRoundTrip(s: string)
    ensures Unescape(Escape(s)) == s
    decreases |s|
  {
    if s != [] {
      UnescapeAfterEscapeChar(s[0], Escape(s[1..]));
      EscapeRoundTrip(s[1..]);
    }
  }

  /** Escaping lengthens the text exactly when it holds a metacharacter. */
  lemma {:induction false} EscapeLengthens(s: string)
    ensures |Escape(s)| == |s| <==> forall k :: 0 <= k < |s| ==> !IsMeta(s[k])
    decreases |s|
  {
    if s != [] {
      EscapeLengthens(s[1..]);
      assert forall k :: 1 <= k < |s| ==> s[k] == s[1..][k - 1];
    }
  }

  lemma {:induction false} EscapeKeepsPlainText(s: string)
    requires forall k :: 0 <= k < |s| ==> !IsMeta(s[k])
    ensures Escape(s) == s
    decreases |s|
  {
    if s != [] {
      assert !IsMeta(s[0]);
      assert forall k :: 0 <= k < |s[1..]| ==> s[1..][k] == s[k + 1];
      EscapeKeepsPlainText(s[1..]);
      assert s == [s[0]] + s[1..];
    }
  }

  /** Text without metacharacters is left as it is by `Escape`, and only such text. */
  lemma {:induction false} EscapeFixesExactlyPlainText(s: string)
    ensures Escape(s) == s <==> forall k :: 0 <= k < |s| ==> !IsMeta(s[k])
  {
    EscapeLengthens(s);
    if forall k :: 0 <= k < |s| ==> !IsMeta(s[k]) {
      EscapeKeepsPlainText(s);
    }
  }

  /** Escaping distributes over concatenation. */
  lemma {:induction false} EscapeConcat(a: string, b: string)
    ensures Escape(a + b) == Escape(a) + Escape(b)
    decreases |a|
  {
    if a != [] {
      assert (a + b)[0] == a[0];
      assert (a + b)[1..] == a[1..] + b;
      EscapeConcat(a[1..], b);
    } else {
      assert a + b == b;
    }
  }

  lemma EscapeOneChar(c: char)
    ensures Escape([c]) == EscapeChar(c)
  {
  }

  /** The opening tag of the test case of a bold tag, escaped. */
  lemma EscapeOpenTag()
    ensures Escape("<b>") == "&lt;b&gt;"
  {
    EscapeOneChar('<');
    EscapeOneChar('b');
    EscapeOneChar('>');
    EscapeConcat("<", "b");
    EscapeConcat("<b", ">");
    assert "<b>" == "<b" + ">";
  }

  /** The closing tag of the test case of a bold tag, escaped. */
  lemma EscapeCloseTag()
    ensures Escape("</b>") == "&lt;/b&gt;"
  {
    EscapeOneChar('<');
    EscapeOneChar('/');
    EscapeOneChar('b');
    EscapeOneChar('>');
    EscapeConcat("<", "/");
    EscapeConcat("</", "b");
    EscapeConcat("</b", ">");
    assert "</b>" == "</b" + ">";
  }

  /** The test case of a bold tag in plain text. */
  lemma EscapeBoldTag()
    ensures Escape("<b>bold</b>") == "&lt;b&gt;bold&lt;/b&gt;"
  {
    calc {
      Escape("<b>bold</b>");
      { assert "<b>bold</b>" == "<b>" + "bold" + "</b>"; }
      Escape("<b>" + "bold" + "</b>");
      { EscapeConcat("<b>" + "bold", "</b>"); EscapeConcat("<b>", "bold"); }
      Escape("<b>") + Escape("bold") + Escape("</b>");
      { EscapeOpenTag(); EscapeKeepsPlainText("bold"); EscapeCloseTag(); }
      "&lt;b&gt;" + "bold" + "&lt;/b&gt;";
      "&lt;b&gt;bold&lt;/b&gt;";
    }
  }
}
