/**
 * HTML escaping of the converter's error text (`escapeHtml` in the panel
 * module): five global single-character replacements applied in a fixed
 * order, ampersand first.
 */
module Escaping {

  /** The five characters `escapeHtml` rewrites. */
  predicate IsSpecial(c: char) {
    c == '&' || c == '<' || c == '>' || c == '"' || c == '\''
  }

  /** What a single character becomes once escaped. */
  function Entity(c: char): string {
    match c
    case '&' => "&amp;"
    case '<' => "&lt;"
    case '>' => "&gt;"
    case '"' => "&quot;"
    case '\'' => "&#039;"
    case _ => [c]
  }

  /** `s` begins with one of the five entities `escapeHtml` produces. */
  predicate BeginsEntity(s: string) {
    "&amp;" <= s || "&lt;" <= s || "&gt;" <= s || "&quot;" <= s || "&#039;" <= s
  }

  /**
   * `s.replace(/c/g, rep)`: every occurrence of the character `c`, scanning
   * left to right, replaced by `rep`.
   */
  function ReplaceAll(s: string, c: char, rep: string): (r: string)
    ensures c !in rep ==> c !in r
  {
    if s == [] then []
    else (if s[0] == c then rep else [s[0]]) + ReplaceAll(s[1..], c, rep)
  }

  /** `escapeHtml(unsafe)`: the chain of five global replacements. */
  function EscapeHtml(unsafe: string): (r: string) {
    var r1 := ReplaceAll(unsafe, '&', "&amp;");
    var r2 := ReplaceAll(r1, '<', "&lt;");
    var r3 := ReplaceAll(r2, '>', "&gt;");
    var r4 := ReplaceAll(r3, '"', "&quot;");
    var r5 := ReplaceAll(r4, '\'', "&#039;");
    r5
  }

  /**
   * What a browser does with the escaped text: each of the five entities
   * read back as its character, everything else kept.
   */
  function Unescape(s: string): (r: string)
    decreases |s|
  {
    if s == [] then []
    else if "&amp;" <= s then "&" + Unescape(s[5..])
    else if "&lt;" <= s then "<" + Unescape(s[4..])
    else if "&gt;" <= s then ">" + Unescape(s[4..])
    else if "&quot;" <= s then "\"" + Unescape(s[6..])
    else if "&#039;" <= s then "'" + Unescape(s[6..])
    else [s[0]] + Unescape(s[1..])
  }

  /** Replacing a character distributes over concatenation. */
  lemma {:induction false} ReplaceAllAppend(a: string, b: string, c: char, rep: string)
    ensures ReplaceAll(a + b, c, rep) == ReplaceAll(a, c, rep) + ReplaceAll(b, c, rep)
  {
    if a == [] {
      assert a + b == b;
    } else {
      assert (a + b)[0] == a[0];
      assert (a + b)[1..] == a[1..] + b;
      ReplaceAllAppend(a[1..], b, c, rep);
    }
  }

  /** A replacement introduces no character its replacement text lacks. */
  lemma {:induction false} ReplaceAllKeepsAbsent(s: string, c: char, rep: string, x: char)
    requires x !in s && x !in rep
    ensures x !in ReplaceAll(s, c, rep)
  {
    if s != [] {
      assert x != s[0];
      ReplaceAllKeepsAbsent(s[1..], c, rep, x);
    }
  }

  /** Replacing a character that does not occur changes nothing. */
  lemma {:induction false} ReplaceAllAbsent(s: string, c: char, rep: string)
    requires c !in s
    ensures ReplaceAll(s, c, rep) == s
  {
    if s != [] {
      assert s == [s[0]] + s[1..];
      ReplaceAllAbsent(s[1..], c, rep);
    }
  }

  /** Replacing in a one-character string. */
  lemma ReplaceAllSingle(x: char, c: char, rep: string)
    ensures ReplaceAll([x], c, rep) == if x == c then rep else [x]
  {
    assert [x][1..] == [];
  }

  /** Stages two to five leave alone a text without `<`, `>`, `"` and `'`. */
  lemma StagesFromLessThanFix(e: string)
    requires '<' !in e && '>' !in e && '"' !in e && '\'' !in e
    ensures ReplaceAll(ReplaceAll(ReplaceAll(ReplaceAll(
              e, '<', "&lt;"), '>', "&gt;"), '"', "&quot;"), '\'', "&#039;") == e
  {
    ReplaceAllAbsent(e, '<', "&lt;");
    StagesFromGreaterThanFix(e);
  }

  /** Stages three to five leave alone a text without `>`, `"` and `'`. */
  lemma StagesFromGreaterThanFix(e: string)
    requires '>' !in e && '"' !in e && '\'' !in e
    ensures ReplaceAll(ReplaceAll(ReplaceAll(e, '>', "&gt;"), '"', "&quot;"), '\'', "&#039;") == e
  {
    ReplaceAllAbsent(e, '>', "&gt;");
    StagesFromDoubleQuoteFix(e);
  }

  /** Stages four and five leave alone a text without `"` and `'`. */
  lemma StagesFromDoubleQuoteFix(e: string)
    requires '"' !in e && '\'' !in e
    ensures ReplaceAll(ReplaceAll(e, '"', "&quot;"), '\'', "&#039;") == e
  {
    ReplaceAllAbsent(e, '"', "&quot;");
    ReplaceAllAbsent(e, '\'', "&#039;");
  }

  /** `escapeHtml` of the lone character `&`. */
  lemma EscapeAmpersand()
    ensures EscapeHtml(['&']) == "&amp;"
  {
    var c := '&';
    ReplaceAllSingle(c, '&', "&amp;");
    StagesFromLessThanFix("&amp;");
  }

  /** `escapeHtml` of the lone character `<`. */
  lemma EscapeLessThan()
    ensures EscapeHtml(['<']) == "&lt;"
  {
    var c := '<';
    ReplaceAllAbsent([c], '&', "&amp;");
    ReplaceAllSingle(c, '<', "&lt;");
    StagesFromGreaterThanFix("&lt;");
  }

  /** `escapeHtml` of the lone character `>`. */
  lemma EscapeGreaterThan()
    ensures EscapeHtml(['>']) == "&gt;"
  {
    var c := '>';
    ReplaceAllAbsent([c], '&', "&amp;");
    ReplaceAllAbsent([c], '<', "&lt;");
    ReplaceAllSingle(c, '>', "&gt;");
    StagesFromDoubleQuoteFix("&gt;");
  }

  /** `escapeHtml` of the lone character `"`. */
  lemma EscapeDoubleQuote()
    ensures EscapeHtml(['"']) == "&quot;"
  {
    var c := '"';
    ReplaceAllAbsent([c], '&', "&amp;");
    ReplaceAllAbsent([c], '<', "&lt;");
    ReplaceAllAbsent([c], '>', "&gt;");
    ReplaceAllSingle(c, '"', "&quot;");
    ReplaceAllAbsent("&quot;", '\'', "&#039;");
  }

  /** `escapeHtml` of the lone character `'`. */
  lemma EscapeSingleQuote()
    ensures EscapeHtml(['\'']) == "&#039;"
  {
    var c := '\'';
    ReplaceAllAbsent([c], '&', "&amp;");
    ReplaceAllAbsent([c], '<', "&lt;");
    ReplaceAllAbsent([c], '>', "&gt;");
    ReplaceAllAbsent([c], '"', "&quot;");
    ReplaceAllSingle(c, '\'', "&#039;");
  }

  /** `escapeHtml` of a lone character that needs no escaping. */
  lemma EscapePlain(c: char)
    requires !IsSpecial(c)
    ensures EscapeHtml([c]) == [c]
  {
    ReplaceAllAbsent([c], '&', "&amp;");
    ReplaceAllAbsent([c], '<', "&lt;");
    ReplaceAllAbsent([c], '>', "&gt;");
    ReplaceAllAbsent([c], '"', "&quot;");
    ReplaceAllAbsent([c], '\'', "&#039;");
  }

  /** The chain applied to one character yields that character's entity. */
  lemma EscapeHtmlChar(c: char)
    ensures EscapeHtml([c]) == Entity(c)
  {
    if c == '&' {
      EscapeAmpersand();
    } else if c == '<' {
      EscapeLessThan();
    } else if c == '>' {
      EscapeGreaterThan();
    } else if c == '"' {
      EscapeDoubleQuote();
    } else if c == '\'' {
      EscapeSingleQuote();
    } else {
      EscapePlain(c);
    }
  }

  /**
   * The chain of five replacements escapes character by character: the
   * later replacements never touch what the earlier ones produced.
   */
  lemma EscapeHtmlCons(c: char, t: string)
    ensures EscapeHtml([c] + t) == Entity(c) + EscapeHtml(t)
  {
    var a1, b1 := ReplaceAll([c], '&', "&amp;"), ReplaceAll(t, '&', "&amp;");
    ReplaceAllAppend([c], t, '&', "&amp;");
    var a2, b2 := ReplaceAll(a1, '<', "&lt;"), ReplaceAll(b1, '<', "&lt;");
    ReplaceAllAppend(a1, b1, '<', "&lt;");
    var a3, b3 := ReplaceAll(a2, '>', "&gt;"), ReplaceAll(b2, '>', "&gt;");
    ReplaceAllAppend(a2, b2, '>', "&gt;");
    var a4, b4 := ReplaceAll(a3, '"', "&quot;"), ReplaceAll(b3, '"', "&quot;");
    ReplaceAllAppend(a3, b3, '"', "&quot;");
    ReplaceAllAppend(a4, b4, '\'', "&#039;");
    EscapeHtmlChar(c);
  }

  /** Escaping the empty string gives the empty string. */
  lemma EscapeHtmlEmpty()
    ensures EscapeHtml([]) == []
  {
  }

  /** Reading an entity back yields its character, and the rest is read on. */
  lemma UnescapeEntity(c: char, rest: string)
    ensures Unescape(Entity(c) + rest) == [c] + Unescape(rest)
  {
    var s := Entity(c) + rest;
    if c == '&' {
      assert "&amp;" <= s;
      assert s[5..] == rest;
    } else if c == '<' {
      assert !("&amp;" <= s) by { assert s[1] == 'l'; }
      assert "&lt;" <= s;
      assert s[4..] == rest;
    } else if c == '>' {
      assert !("&amp;" <= s) && !("&lt;" <= s) by { assert s[1] == 'g'; }
      assert "&gt;" <= s;
      assert s[4..] == rest;
    } else if c == '"' {
      assert !("&amp;" <= s) && !("&lt;" <= s) && !("&gt;" <= s) by { assert s[1] == 'q'; }
      assert "&quot;" <= s;
      assert s[6..] == rest;
    } else if c == '\'' {
      assert !("&amp;" <= s) && !("&lt;" <= s) && !("&gt;" <= s) && !("&quot;" <= s) by {
        assert s[1] == '#';
      }
      assert "&#039;" <= s;
      assert s[6..] == rest;
    } else {
      assert s[0] == c && c != '&';
      assert s[1..] == rest;
    }
  }

  /**
   * Round trip: reading the escaped text back gives the original text, so
   * no character is lost or escaped twice (this is what replacing `&` first
   * buys).
   */
  lemma {:induction false} UnescapeEscapeHtml(s: string)
    ensures Unescape(EscapeHtml(s)) == s
  {
    if s == [] {
      EscapeHtmlEmpty();
    } else {
      assert s == [s[0]] + s[1..];
      EscapeHtmlCons(s[0], s[1..]);
      UnescapeEntity(s[0], EscapeHtml(s[1..]));
      UnescapeEscapeHtml(s[1..]);
    }
  }

  /** The escaped text holds no raw `<`, `>`, `"` or `'`. */
  lemma EscapeHtmlNoRawSpecials(unsafe: string)
    ensures var r := EscapeHtml(unsafe); '<' !in r && '>' !in r && '"' !in r && '\'' !in r
  {
    var r1 := ReplaceAll(unsafe, '&', "&amp;");
    var r2 := ReplaceAll(r1, '<', "&lt;");
    var r3 := ReplaceAll(r2, '>', "&gt;");
    var r4 := ReplaceAll(r3, '"', "&quot;");
    var r5 := ReplaceAll(r4, '\'', "&#039;");
    assert '<' !in r3 by { ReplaceAllKeepsAbsent(r2, '>', "&gt;", '<'); }
    assert '<' !in r4 && '>' !in r4 by {
      ReplaceAllKeepsAbsent(r3, '"', "&quot;", '<');
      ReplaceAllKeepsAbsent(r3, '"', "&quot;", '>');
    }
    assert '<' !in r5 && '>' !in r5 && '"' !in r5 by {
      ReplaceAllKeepsAbsent(r4, '\'', "&#039;", '<');
      ReplaceAllKeepsAbsent(r4, '\'', "&#039;", '>');
      ReplaceAllKeepsAbsent(r4, '\'', "&#039;", '"');
    }
  }

  /** Text holding none of the five characters is returned unchanged. */
  lemma EscapeHtmlIdentity(s: string)
    requires forall i :: 0 <= i < |s| ==> !IsSpecial(s[i])
    ensures EscapeHtml(s) == s
  {
    ReplaceAllAbsent(s, '&', "&amp;");
    ReplaceAllAbsent(s, '<', "&lt;");
    ReplaceAllAbsent(s, '>', "&gt;");
    ReplaceAllAbsent(s, '"', "&quot;");
    ReplaceAllAbsent(s, '\'', "&#039;");
  }

  /** Every `&` of `s` begins one of the five entities. */
  predicate AmpersandsBeginEntities(s: string) {
    forall i :: 0 <= i < |s| && s[i] == '&' ==> BeginsEntity(s[i..])
  }

  /** The entity of a single character satisfies the ampersand property. */
  lemma EntityAmpersands(c: char)
    ensures AmpersandsBeginEntities(Entity(c))
  {
    var e := Entity(c);
    forall i | 0 <= i < |e| && e[i] == '&'
      ensures BeginsEntity(e[i..])
    {
      assert i == 0;
    }
  }

  /** The ampersand property survives concatenation. */
  lemma AmpersandsAppend(a: string, b: string)
    requires AmpersandsBeginEntities(a) && AmpersandsBeginEntities(b)
    ensures AmpersandsBeginEntities(a + b)
  {
    forall i | 0 <= i < |a + b| && (a + b)[i] == '&'
      ensures BeginsEntity((a + b)[i..])
    {
      if i < |a| {
        assert BeginsEntity(a[i..]);
        assert (a + b)[i..] == a[i..] + b;
      } else {
        assert (a + b)[i..] == b[i - |a|..];
      }
    }
  }

  /** Every `&` of the escaped text begins one of the five entities. */
  lemma {:induction false} EscapedAmpersandsBeginEntities(s: string)
    ensures AmpersandsBeginEntities(EscapeHtml(s))
  {
    if s == [] {
      EscapeHtmlEmpty();
    } else {
      assert s == [s[0]] + s[1..];
      EscapeHtmlCons(s[0], s[1..]);
      EntityAmpersands(s[0]);
      EscapedAmpersandsBeginEntities(s[1..]);
      AmpersandsAppend(Entity(s[0]), EscapeHtml(s[1..]));
    }
  }
}
