/**
 HTML escaping of the Supabase Auth hook (email.ts) and of template rendering: five
 whole-string replacements, one after the other.
 */
module HtmlEscape {
  import opened Wrappers

  /** `value.replaceAll(c, replacement)` for a one-character pattern. */
  function ReplaceAll(value: string, c: char, replacement: string): string {
    if value == "" then ""
    else (if value[0] == c then replacement else [value[0]]) + ReplaceAll(value[1..], c, replacement)
  }

  function EscapeHtml(value: string): string {
    ReplaceAll(
      ReplaceAll(
        ReplaceAll(
          ReplaceAll(
            ReplaceAll(value, '&', "&amp;"),
            '<', "&lt;"),
          '>', "&gt;"),
        '"', "&quot;"),
      '\'', "&#39;")
  }

  /** The character reference of one character, or the character itself. */
  function Reference(c: char): (r: string)
    ensures r != ""
  {
    match c
    case '&' => "&amp;"
    case '<' => "&lt;"
    case '>' => "&gt;"
    case '"' => "&quot;"
    case '\'' => "&#39;"
    case _ => [c]
  }

  /** The reference semantics: every input character is looked at exactly once. */
  function OnePass(value: string): string {
    if value == "" then "" else Reference(value[0]) + OnePass(value[1..])
  }

  predicate HasPrefix(s: string, prefix: string) {
    |prefix| <= |s| && s[..|prefix|] == prefix
  }

  /** The character whose reference `s` starts with, if it starts with one of the five. */
  function Opening(s: string): (r: Option<char>)
    ensures r.Some? ==> HasPrefix(s, Reference(r.value))
  {
    if HasPrefix(s, "&amp;") then Some('&')
    else if HasPrefix(s, "&lt;") then Some('<')
    else if HasPrefix(s, "&gt;") then Some('>')
    else if HasPrefix(s, "&quot;") then Some('"')
    else if HasPrefix(s, "&#39;") then Some('\'')
    else None
  }

  /** What a browser does with the five references; any other `&` is kept. */
  function Decode(s: string): string
    decreases |s|
  {
    if s == "" then ""
    else
      match Opening(s)
      case Some(c) => [c] + Decode(s[|Reference(c)|..])
      case None => [s[0]] + Decode(s[1..])
  }

  lemma {:induction false} ReplaceAllAppends(a: string, b: string, c: char, replacement: string)
    ensures ReplaceAll(a + b, c, replacement) == ReplaceAll(a, c, replacement) + ReplaceAll(b, c, replacement)
  {
    if a == "" {
      assert a + b == b;
    } else {
      assert (a + b)[1..] == a[1..] + b;
      ReplaceAllAppends(a[1..], b, c, replacement);
    }
  }

  lemma {:induction false} ReplaceAllAbsent(s: string, c: char, replacement: string)
    requires c !in s
    ensures ReplaceAll(s, c, replacement) == s
  {
    if s != "" {
      ReplaceAllAbsent(s[1..], c, replacement);
    }
  }

  lemma ReplaceAllSingle(c: char, d: char, replacement: string)
    ensures ReplaceAll([c], d, replacement) == if c == d then replacement else [c]
  {
    assert [c][1..] == "";
    assert replacement + "" == replacement;
  }

  lemma EscapeHtmlAppends(a: string, b: string)
    ensures EscapeHtml(a + b) == EscapeHtml(a) + EscapeHtml(b)
  {
    ReplaceAllAppends(a, b, '&', "&amp;");
    var a1, b1 := ReplaceAll(a, '&', "&amp;"), ReplaceAll(b, '&', "&amp;");
    ReplaceAllAppends(a1, b1, '<', "&lt;");
    var a2, b2 := ReplaceAll(a1, '<', "&lt;"), ReplaceAll(b1, '<', "&lt;");
    ReplaceAllAppends(a2, b2, '>', "&gt;");
    var a3, b3 := ReplaceAll(a2, '>', "&gt;"), ReplaceAll(b2, '>', "&gt;");
    ReplaceAllAppends(a3, b3, '"', "&quot;");
    ReplaceAllAppends(ReplaceAll(a3, '"', "&quot;"), ReplaceAll(b3, '"', "&quot;"), '\'', "&#39;");
  }

  /** One replacement leaves alone what an earlier one produced. */
  lemma LaterReplacementsSkip(s: string, c: char, replacement: string)
    requires s in {"&amp;", "&lt;", "&gt;", "&quot;", "&#39;"}
    requires c in {'<', '>', '"', '\''}
    ensures ReplaceAll(s, c, replacement) == s
  {
    assert c !in "&amp;" && c !in "&lt;" && c !in "&gt;" && c !in "&quot;" && c !in "&#39;";
    ReplaceAllAbsent(s, c, replacement);
  }

  lemma EscapeHtmlSingle(c: char)
    ensures EscapeHtml([c]) == Reference(c)
  {
    ReplaceAllSingle(c, '&', "&amp;");
    ReplaceAllSingle(c, '<', "&lt;");
    ReplaceAllSingle(c, '>', "&gt;");
    ReplaceAllSingle(c, '"', "&quot;");
    ReplaceAllSingle(c, '\'', "&#39;");
    if c in {'&', '<', '>', '"', '\''} {
      LaterReplacementsSkip(Reference(c), '<', "&lt;");
      LaterReplacementsSkip(Reference(c), '>', "&gt;");
      LaterReplacementsSkip(Reference(c), '"', "&quot;");
      LaterReplacementsSkip(Reference(c), '\'', "&#39;");
    }
  }

  /** The five replacements in sequence are one substitution per character. */
  lemma {:induction false} EscapeHtmlIsOnePass(value: string)
    ensures EscapeHtml(value) == OnePass(value)
  {
    if value != "" {
      assert value == [value[0]] + value[1..];
      EscapeHtmlAppends([value[0]], value[1..]);
      EscapeHtmlSingle(value[0]);
      EscapeHtmlIsOnePass(value[1..]);
    }
  }

  predicate Escaped(c: char) {
    c in {'&', '<', '>', '"', '\''}
  }

  /** The second character tells the five references apart. */
  lemma PrefixDecides(s: string, prefix: string)
    requires |prefix| >= 2 && HasPrefix(s, prefix)
    ensures s[0] == prefix[0] && s[1] == prefix[1]
  {
    assert s[..|prefix|][0] == prefix[0] && s[..|prefix|][1] == prefix[1];
  }

  lemma OpeningOfReference(c: char, rest: string)
    ensures Opening(Reference(c) + rest) == if Escaped(c) then Some(c) else None
  {
    var s := Reference(c) + rest;
    assert s[..|Reference(c)|] == Reference(c);
    var opening := Opening(s);
    if opening.Some? {
      PrefixDecides(s, Reference(opening.value));
    }
    if Escaped(c) {
      assert HasPrefix(s, Reference(c));
    }
  }

  lemma DecodeReference(c: char, rest: string)
    ensures Decode(Reference(c) + rest) == [c] + Decode(rest)
  {
    OpeningOfReference(c, rest);
    assert (Reference(c) + rest)[|Reference(c)|..] == rest;
  }

  /** Decoding the five references gives back the original text. */
  lemma {:induction false} DecodeEscaped(value: string)
    ensures Decode(EscapeHtml(value)) == value
  {
    EscapeHtmlIsOnePass(value);
    if value != "" {
      DecodeReference(value[0], OnePass(value[1..]));
      EscapeHtmlIsOnePass(value[1..]);
      DecodeEscaped(value[1..]);
      assert [value[0]] + value[1..] == value;
    }
  }

  /** Every position of the escaped text: no raw markup, and `&` only opens a reference. */
  ghost predicate Inert(s: string) {
    forall i :: 0 <= i < |s| ==>
      s[i] !in {'<', '>', '"', '\''} && (s[i] == '&' ==> Opening(s[i..]).Some?)
  }

  lemma InertReference(c: char, rest: string)
    requires Inert(rest)
    ensures Inert(Reference(c) + rest)
  {
    var first := Reference(c);
    var s := first + rest;
    forall i | 0 <= i < |s|
      ensures s[i] !in {'<', '>', '"', '\''} && (s[i] == '&' ==> Opening(s[i..]).Some?)
    {
      if i >= |first| {
        assert s[i..] == rest[i - |first|..];
      } else {
        OpeningOfReference(c, rest);
        assert s[0..] == s;
        assert 0 < i < |first| ==> first[i] != '&';
      }
    }
  }

  /** No raw markup character survives, and `&` only ever opens one of the references. */
  lemma {:induction false} EscapedIsInert(value: string)
    ensures Inert(EscapeHtml(value))
  {
    EscapeHtmlIsOnePass(value);
    if value != "" {
      EscapeHtmlIsOnePass(value[1..]);
      EscapedIsInert(value[1..]);
      InertReference(value[0], OnePass(value[1..]));
    }
  }
}
