/** The QQ Music lyrics provider (src/providers/qq.rs): the search key sent for
    a track and the HTML entity decoding applied to each downloaded lyric text.
    The HTTP requests, the JSON navigation, base64 decoding and LRC parsing are
    not part of this model. */
module QQ {
  import opened Strings

  /** The `key` query parameter: the title, one space, the artist. */
  function SearchKey(title: string, artist: string): (key: string)
    ensures |key| == |title| + 1 + |artist|
    ensures key[..|title|] == title && key[|title|] == ' ' && key[|title| + 1..] == artist
  {
    title + " " + artist
  }

  /** A title without spaces can be read back from the key: it is everything
      before the first space. */
  lemma SearchKeySplits(title: string, artist: string)
    requires ' ' !in title
    ensures forall i :: 0 <= i < |title| ==> SearchKey(title, artist)[i] != ' '
    ensures SearchKey(title, artist)[|title|] == ' '
  {
    var key := SearchKey(title, artist);
    forall i | 0 <= i < |title|
      ensures key[i] != ' '
    {
      assert key[i] == key[..|title|][i] == title[i];
    }
  }

  // ---------------------------------------------------------------------------
  // Entity decoding

  /** The chain of `replace` calls applied to each lyric text, in the source's order. */
  function DecodeEntities(s: string): (r: string)
    ensures |r| <= |s|
  {
    var s1 := ReplaceAll(s, "&apos;", "'");
    var s2 := ReplaceAll(s1, "&quot;", "\"");
    var s3 := ReplaceAll(s2, "&amp;", "&");
    var s4 := ReplaceAll(s3, "&lt;", "<");
    var s5 := ReplaceAll(s4, "&gt;", ">");
    var s6 := ReplaceAll(s5, "&nbsp;", " ");
    var s7 := ReplaceAll(s6, "&ensp;", " ");
    var s8 := ReplaceAll(s7, "&emsp;", " ");
    ReplaceAllShrinks(s, "&apos;", "'");
    ReplaceAllShrinks(s1, "&quot;", "\"");
    ReplaceAllShrinks(s2, "&amp;", "&");
    ReplaceAllShrinks(s3, "&lt;", "<");
    ReplaceAllShrinks(s4, "&gt;", ">");
    ReplaceAllShrinks(s5, "&nbsp;", " ");
    ReplaceAllShrinks(s6, "&ensp;", " ");
    ReplaceAllShrinks(s7, "&emsp;", " ");
    s8
  }

  /** The replacements from `&lt;` on: what the chain does to the output of its
      first three steps. */
  function DecodeAfterAmp(s3: string): string {
    var s4 := ReplaceAll(s3, "&lt;", "<");
    var s5 := ReplaceAll(s4, "&gt;", ">");
    var s6 := ReplaceAll(s5, "&nbsp;", " ");
    var s7 := ReplaceAll(s6, "&ensp;", " ");
    ReplaceAll(s7, "&emsp;", " ")
  }

  /** The first three replacements of the chain. */
  function DecodeThroughAmp(s: string): string {
    ReplaceAll(ReplaceAll(ReplaceAll(s, "&apos;", "'"), "&quot;", "\""), "&amp;", "&")
  }

  lemma DecodeSplits(s: string)
    ensures DecodeEntities(s) == DecodeAfterAmp(DecodeThroughAmp(s))
  {
  }

  /** Text without `&` holds no entity and passes through every step unchanged. */
  lemma AfterAmpWithoutAmpersand(s: string)
    requires '&' !in s
    ensures DecodeAfterAmp(s) == s
  {
    ReplaceAllAbsent(s, "&lt;", "<");
    ReplaceAllAbsent(s, "&gt;", ">");
    ReplaceAllAbsent(s, "&nbsp;", " ");
    ReplaceAllAbsent(s, "&ensp;", " ");
    ReplaceAllAbsent(s, "&emsp;", " ");
  }

  lemma DecodeWithoutAmpersand(s: string)
    requires '&' !in s
    ensures DecodeEntities(s) == s
  {
    ReplaceAllAbsent(s, "&apos;", "'");
    ReplaceAllAbsent(s, "&quot;", "\"");
    ReplaceAllAbsent(s, "&amp;", "&");
    DecodeSplits(s);
    AfterAmpWithoutAmpersand(s);
  }

  /** A text whose only `&` is its first character is left alone by a
      replacement whose pattern differs from it at some position `i`. */
  lemma MissesAt(s: string, pat: string, rep: string, i: nat)
    requires |pat| > 0 && pat[0] == '&' && |s| > 0 && '&' !in s[1..]
    requires 0 < i < |pat| && i < |s| && pat[i] != s[i]
    ensures ReplaceAll(s, pat, rep) == s
  {
    assert s == [s[0]] + s[1..];
    assert !(pat <= s);
    ReplaceAllSkip(s[0], s[1..], pat, rep);
    ReplaceAllAbsent(s[1..], pat, rep);
  }

  /** A text that is exactly the pattern becomes the replacement. */
  lemma ReplaceWhole(pat: string, rep: string)
    requires |pat| > 0
    ensures ReplaceAll(pat, pat, rep) == rep
  {
    ReplaceAllPrefixed(pat, rep, "");
    assert pat + "" == pat;
  }

  /** Inside text without `&`, an entity `e` is left alone by a replacement whose
      pattern differs from it at some position `i`. */
  lemma KeepsEntity(a: string, e: string, b: string, pat: string, rep: string, i: nat)
    requires '&' !in a && '&' !in b
    requires |e| > 0 && e[0] == '&' && '&' !in e[1..]
    requires |pat| > 0 && pat[0] == '&' && 0 < i < |pat| && i < |e| && pat[i] != e[i]
    ensures ReplaceAll(a + e + b, pat, rep) == a + e + b
  {
    var s := e + b;
    assert a + e + b == a + s;
    assert s[1..] == e[1..] + b && s[i] == e[i];
    ReplaceAllAfter(a, s, pat, rep);
    MissesAt(s, pat, rep, i);
  }

  /** Inside text without `&`, a lone `&` is left alone by a replacement whose
      pattern's tail does not follow it. */
  lemma KeepsAmpersand(a: string, b: string, pat: string, rep: string)
    requires '&' !in a && '&' !in b
    requires |pat| > 0 && pat[0] == '&' && !(pat[1..] <= b)
    ensures ReplaceAll(a + "&" + b, pat, rep) == a + "&" + b
  {
    var s := "&" + b;
    assert a + "&" + b == a + s;
    assert s[1..] == b;
    ReplaceAllAfter(a, s, pat, rep);
    ReplaceAllSkip('&', b, pat, rep);
    ReplaceAllAbsent(b, pat, rep);
  }

  /** Text in which `&` no longer occurs passes through the remaining steps. */
  lemma DecodedPassesThrough(a: string, d: string, b: string)
    requires '&' !in a && '&' !in d && '&' !in b
    ensures var s := a + d + b;
      && ReplaceAll(s, "&quot;", "\"") == s && ReplaceAll(s, "&amp;", "&") == s
      && ReplaceAll(s, "&lt;", "<") == s && ReplaceAll(s, "&gt;", ">") == s
      && ReplaceAll(s, "&nbsp;", " ") == s && ReplaceAll(s, "&ensp;", " ") == s
      && ReplaceAll(s, "&emsp;", " ") == s
  {
    var s := a + d + b;
    ReplaceAllAbsent(s, "&quot;", "\"");
    ReplaceAllAbsent(s, "&amp;", "&");
    ReplaceAllAbsent(s, "&lt;", "<");
    ReplaceAllAbsent(s, "&gt;", ">");
    ReplaceAllAbsent(s, "&nbsp;", " ");
    ReplaceAllAbsent(s, "&ensp;", " ");
    ReplaceAllAbsent(s, "&emsp;", " ");
  }

  /** The named character entities decode to their characters wherever they stand
      in text that holds no other `&`. */
  lemma DecodesApos(a: string, b: string)
    requires '&' !in a && '&' !in b
    ensures DecodeEntities(a + "&apos;" + b) == a + "'" + b
  {
    ReplaceAllOnce(a, "&apos;", b, "'");
    DecodedPassesThrough(a, "'", b);
  }

  lemma DecodesQuot(a: string, b: string)
    requires '&' !in a && '&' !in b
    ensures DecodeEntities(a + "&quot;" + b) == a + "\"" + b
  {
    var e := "&quot;";
    assert e[1..] == "quot;";
    KeepsEntity(a, e, b, "&apos;", "'", 1);
    ReplaceAllOnce(a, e, b, "\"");
    DecodedPassesThrough(a, "\"", b);
  }

  /** An escaped ampersand decodes to `&`, provided what follows it does not make
      it the start of a later entity (see `DecodeOrderLt`). */
  lemma DecodesAmp(a: string, b: string)
    requires '&' !in a && '&' !in b
    requires !("lt;" <= b) && !("gt;" <= b) && !("nbsp;" <= b) && !("ensp;" <= b) && !("emsp;" <= b)
    ensures DecodeEntities(a + "&amp;" + b) == a + "&" + b
  {
    var e := "&amp;";
    assert e[1..] == "amp;";
    KeepsEntity(a, e, b, "&apos;", "'", 2);
    KeepsEntity(a, e, b, "&quot;", "\"", 1);
    ReplaceAllOnce(a, e, b, "&");
    assert "&lt;"[1..] == "lt;" && "&gt;"[1..] == "gt;";
    assert "&nbsp;"[1..] == "nbsp;" && "&ensp;"[1..] == "ensp;" && "&emsp;"[1..] == "emsp;";
    KeepsAmpersand(a, b, "&lt;", "<");
    KeepsAmpersand(a, b, "&gt;", ">");
    KeepsAmpersand(a, b, "&nbsp;", " ");
    KeepsAmpersand(a, b, "&ensp;", " ");
    KeepsAmpersand(a, b, "&emsp;", " ");
  }

  /** A lone `&` is no entity. */
  lemma AmpersandAlone()
    ensures DecodeAfterAmp("&") == "&"
  {
    var e := "&";
    assert e[1..] == [];
    ReplaceAllSkip('&', [], "&lt;", "<");
    ReplaceAllSkip('&', [], "&gt;", ">");
    ReplaceAllSkip('&', [], "&nbsp;", " ");
    ReplaceAllSkip('&', [], "&ensp;", " ");
    ReplaceAllSkip('&', [], "&emsp;", " ");
    assert [e[0]] + [] == e;
  }

  lemma DecodesLt(a: string, b: string)
    requires '&' !in a && '&' !in b
    ensures DecodeEntities(a + "&lt;" + b) == a + "<" + b
  {
    var e := "&lt;";
    assert e[1..] == "lt;";
    KeepsEntity(a, e, b, "&apos;", "'", 1);
    KeepsEntity(a, e, b, "&quot;", "\"", 1);
    KeepsEntity(a, e, b, "&amp;", "&", 1);
    ReplaceAllOnce(a, e, b, "<");
    DecodedPassesThrough(a, "<", b);
  }

  lemma LtDecodes()
    ensures DecodeAfterAmp("&lt;") == "<"
  {
    ReplaceWhole("&lt;", "<");
    ReplaceAllAbsent("<", "&gt;", ">");
    ReplaceAllAbsent("<", "&nbsp;", " ");
    ReplaceAllAbsent("<", "&ensp;", " ");
    ReplaceAllAbsent("<", "&emsp;", " ");
  }

  lemma DecodesGt(a: string, b: string)
    requires '&' !in a && '&' !in b
    ensures DecodeEntities(a + "&gt;" + b) == a + ">" + b
  {
    var e := "&gt;";
    assert e[1..] == "gt;";
    KeepsEntity(a, e, b, "&apos;", "'", 1);
    KeepsEntity(a, e, b, "&quot;", "\"", 1);
    KeepsEntity(a, e, b, "&amp;", "&", 1);
    KeepsEntity(a, e, b, "&lt;", "<", 1);
    ReplaceAllOnce(a, e, b, ">");
    DecodedPassesThrough(a, ">", b);
  }

  /** The three space entities each decode to one ASCII space. */
  lemma DecodesNbsp(a: string, b: string)
    requires '&' !in a && '&' !in b
    ensures DecodeEntities(a + "&nbsp;" + b) == a + " " + b
  {
    var e := "&nbsp;";
    assert e[1..] == "nbsp;";
    KeepsEntity(a, e, b, "&apos;", "'", 1);
    KeepsEntity(a, e, b, "&quot;", "\"", 1);
    KeepsEntity(a, e, b, "&amp;", "&", 1);
    KeepsEntity(a, e, b, "&lt;", "<", 1);
    KeepsEntity(a, e, b, "&gt;", ">", 1);
    ReplaceAllOnce(a, e, b, " ");
    DecodedPassesThrough(a, " ", b);
  }

  lemma DecodesEnsp(a: string, b: string)
    requires '&' !in a && '&' !in b
    ensures DecodeEntities(a + "&ensp;" + b) == a + " " + b
  {
    var e := "&ensp;";
    assert e[1..] == "ensp;";
    KeepsEntity(a, e, b, "&apos;", "'", 1);
    KeepsEntity(a, e, b, "&quot;", "\"", 1);
    KeepsEntity(a, e, b, "&amp;", "&", 1);
    KeepsEntity(a, e, b, "&lt;", "<", 1);
    KeepsEntity(a, e, b, "&gt;", ">", 1);
    KeepsEntity(a, e, b, "&nbsp;", " ", 1);
    ReplaceAllOnce(a, e, b, " ");
    DecodedPassesThrough(a, " ", b);
  }

  lemma DecodesEmsp(a: string, b: string)
    requires '&' !in a && '&' !in b
    ensures DecodeEntities(a + "&emsp;" + b) == a + " " + b
  {
    var e := "&emsp;";
    assert e[1..] == "emsp;";
    KeepsEntity(a, e, b, "&apos;", "'", 1);
    KeepsEntity(a, e, b, "&quot;", "\"", 1);
    KeepsEntity(a, e, b, "&amp;", "&", 1);
    KeepsEntity(a, e, b, "&lt;", "<", 1);
    KeepsEntity(a, e, b, "&gt;", ">", 1);
    KeepsEntity(a, e, b, "&nbsp;", " ", 1);
    KeepsEntity(a, e, b, "&ensp;", " ", 2);
    ReplaceAllOnce(a, e, b, " ");
  }

  /** The first three steps turn an escaped ampersand followed by text without
      `&` back into a plain `&` followed by that text. */
  lemma EscapedAmpThroughAmp(rest: string)
    requires '&' !in rest
    ensures DecodeThroughAmp("&amp;" + rest) == "&" + rest
  {
    var e := "&amp;" + rest;
    assert e[1..] == "amp;" + rest;
    MissesAt(e, "&apos;", "'", 2);
    MissesAt(e, "&quot;", "\"", 1);
    ReplaceAllPrefixed("&amp;", "&", rest);
    ReplaceAllAbsent(rest, "&amp;", "&");
  }

  /** The order matters: `&amp;` is decoded after `&apos;` and `&quot;` but
      before `&lt;` and `&gt;`, so a doubly escaped `&lt;` is fully decoded. */
  lemma DecodeOrderLt()
    ensures DecodeEntities("&amp;lt;") == "<"
  {
    assert "&amp;lt;" == "&amp;" + "lt;";
    EscapedAmpThroughAmp("lt;");
    assert "&" + "lt;" == "&lt;";
    DecodeSplits("&amp;lt;");
    LtDecodes();
  }

  /** ... while a doubly escaped `&quot;` keeps one level of escaping. */
  lemma DecodeOrderQuot()
    ensures DecodeEntities("&amp;quot;") == "&quot;"
  {
    assert "&amp;quot;" == "&amp;" + "quot;";
    EscapedAmpThroughAmp("quot;");
    assert "&" + "quot;" == "&quot;";
    DecodeSplits("&amp;quot;");
    QuotSurvivesAfterAmp();
  }

  lemma QuotSurvivesAfterAmp()
    ensures DecodeAfterAmp("&quot;") == "&quot;"
  {
    var q := "&quot;";
    assert q[1..] == "quot;";
    MissesAt(q, "&lt;", "<", 1);
    MissesAt(q, "&gt;", ">", 1);
    MissesAt(q, "&nbsp;", " ", 1);
    MissesAt(q, "&ensp;", " ", 1);
    MissesAt(q, "&emsp;", " ", 1);
  }
}
