/**
 * `escape_xml`, defined identically in the picture service and the Trading
 * API client: five chained `str.replace` calls, `&` first.
 */
module XmlEscape {
  import opened Text

  /** The five characters `escape_xml` replaces. */
  predicate IsSpecial(c: char)
  {
    c == '&' || c == '<' || c == '>' || c == '"' || c == '\''
  }

  predicate NoSpecials(s: string)
  {
    forall i :: 0 <= i < |s| ==> !IsSpecial(s[i])
  }

  /**
   * `s.replace("&", "&amp;").replace("<", "&lt;").replace(">", "&gt;")
   *  .replace('"', "&quot;").replace("'", "&apos;")`.
   */
  function EscapeXml(s: string): string
  {
    var amp := ReplaceChar(s, '&', "&amp;");
    var lt := ReplaceChar(amp, '<', "&lt;");
    var gt := ReplaceChar(lt, '>', "&gt;");
    var quot := ReplaceChar(gt, '"', "&quot;");
    ReplaceChar(quot, '\'', "&apos;")
  }

  /** The entity that stands for one character in the output. */
  function EscapeChar(c: char): (r: string)
    ensures r != []
    ensures IsSpecial(c) ==> r[0] == '&' && forall i :: 1 <= i < |r| ==> !IsSpecial(r[i])
    ensures !IsSpecial(c) ==> r == [c]
  {
    if c == '&' then "&amp;"
    else if c == '<' then "&lt;"
    else if c == '>' then "&gt;"
    else if c == '"' then "&quot;"
    else if c == '\'' then "&apos;"
    else [c]
  }

  /** The reference definition: every character replaced by its entity, independently. */
  function EscapeEach(s: string): string
  {
    if s == [] then [] else EscapeChar(s[0]) + EscapeEach(s[1..])
  }

  /** Escaping distributes over concatenation. */
  lemma EscapeXmlAppend(a: string, b: string)
    ensures EscapeXml(a + b) == EscapeXml(a) + EscapeXml(b)
  {
    ReplaceCharAppend(a, b, '&', "&amp;");
    var a1, b1 := ReplaceChar(a, '&', "&amp;"), ReplaceChar(b, '&', "&amp;");
    ReplaceCharAppend(a1, b1, '<', "&lt;");
    var a2, b2 := ReplaceChar(a1, '<', "&lt;"), ReplaceChar(b1, '<', "&lt;");
    ReplaceCharAppend(a2, b2, '>', "&gt;");
    var a3, b3 := ReplaceChar(a2, '>', "&gt;"), ReplaceChar(b2, '>', "&gt;");
    ReplaceCharAppend(a3, b3, '"', "&quot;");
    var a4, b4 := ReplaceChar(a3, '"', "&quot;"), ReplaceChar(b3, '"', "&quot;");
    ReplaceCharAppend(a4, b4, '\'', "&apos;");
  }

  /** One replace on a one-character string, or on a string without the character. */
  lemma ReplaceStep(t: string, c: char, rep: string)
    ensures c !in t ==> ReplaceChar(t, c, rep) == t
    ensures t == [c] ==> ReplaceChar(t, c, rep) == rep
  {
    if t == [c] { assert t[1..] == []; }
  }

  /** `&` becomes `&amp;`, which the four later replaces leave alone. */
  lemma EscapeAmp(c: char)
    requires c == '&'
    ensures EscapeXml([c]) == "&amp;"
  {
    var e: string := "&amp;";
    ReplaceStep([c], '&', e);
    assert '<' !in e && '>' !in e && '"' !in e && '\'' !in e;
    ReplaceStep(e, '<', "&lt;");
    ReplaceStep(e, '>', "&gt;");
    ReplaceStep(e, '"', "&quot;");
    ReplaceStep(e, '\'', "&apos;");
  }

  lemma EscapeLt(c: char)
    requires c == '<'
    ensures EscapeXml([c]) == "&lt;"
  {
    var e: string := "&lt;";
    ReplaceStep([c], '&', "&amp;");
    ReplaceStep([c], '<', e);
    assert '>' !in e && '"' !in e && '\'' !in e;
    ReplaceStep(e, '>', "&gt;");
    ReplaceStep(e, '"', "&quot;");
    ReplaceStep(e, '\'', "&apos;");
  }

  lemma EscapeGt(c: char)
    requires c == '>'
    ensures EscapeXml([c]) == "&gt;"
  {
    var e: string := "&gt;";
    ReplaceStep([c], '&', "&amp;");
    ReplaceStep([c], '<', "&lt;");
    ReplaceStep([c], '>', e);
    assert '"' !in e && '\'' !in e;
    ReplaceStep(e, '"', "&quot;");
    ReplaceStep(e, '\'', "&apos;");
  }

  lemma EscapeQuot(c: char)
    requires c == '"'
    ensures EscapeXml([c]) == "&quot;"
  {
    var e: string := "&quot;";
    ReplaceStep([c], '&', "&amp;");
    ReplaceStep([c], '<', "&lt;");
    ReplaceStep([c], '>', "&gt;");
    ReplaceStep([c], '"', e);
    assert '\'' !in e;
    ReplaceStep(e, '\'', "&apos;");
  }

  lemma EscapeApos(c: char)
    requires c == '\''
    ensures EscapeXml([c]) == "&apos;"
  {
    ReplaceStep([c], '&', "&amp;");
    ReplaceStep([c], '<', "&lt;");
    ReplaceStep([c], '>', "&gt;");
    ReplaceStep([c], '"', "&quot;");
    ReplaceStep([c], '\'', "&apos;");
  }

  lemma EscapeOther(c: char)
    requires !IsSpecial(c)
    ensures EscapeXml([c]) == [c]
  {
    ReplaceStep([c], '&', "&amp;");
    ReplaceStep([c], '<', "&lt;");
    ReplaceStep([c], '>', "&gt;");
    ReplaceStep([c], '"', "&quot;");
    ReplaceStep([c], '\'', "&apos;");
  }

  /** Once one replace has turned `c` into its entity, the later replaces leave that entity alone. */
  lemma EscapeXmlChar(c: char)
    ensures EscapeXml([c]) == EscapeChar(c)
  {
    if c == '&' { EscapeAmp(c); }
    else if c == '<' { EscapeLt(c); }
    else if c == '>' { EscapeGt(c); }
    else if c == '"' { EscapeQuot(c); }
    else if c == '\'' { EscapeApos(c); }
    else { EscapeOther(c); }
  }

  /** The chained replaces escape each character on its own: `&` first means no entity is escaped twice. */
  lemma {:induction false} EscapeXmlIsEscapeEach(s: string)
    ensures EscapeXml(s) == EscapeEach(s)
  {
    if s == [] {
    } else {
      assert s == [s[0]] + s[1..];
      EscapeXmlAppend([s[0]], s[1..]);
      EscapeXmlChar(s[0]);
      EscapeXmlIsEscapeEach(s[1..]);
    }
  }

  /** A string with none of the five characters is returned unchanged. */
  lemma NoSpecialsUnchanged(s: string)
    requires NoSpecials(s)
    ensures EscapeXml(s) == s
  {
    var amp := ReplaceChar(s, '&', "&amp;");
    var lt := ReplaceChar(amp, '<', "&lt;");
    var gt := ReplaceChar(lt, '>', "&gt;");
    assert '&' !in s;
    assert '<' !in amp;
    assert '>' !in lt;
    assert '"' !in gt;
  }

  lemma {:induction false} EscapeEachLength(s: string)
    ensures |EscapeEach(s)| >= |s|
    ensures !NoSpecials(s) ==> |EscapeEach(s)| > |s| && '&' in EscapeEach(s)
  {
    if s != [] {
      EscapeEachLength(s[1..]);
      assert forall i :: 1 <= i < |s| ==> s[i] == s[1..][i - 1];
      assert NoSpecials(s) <==> !IsSpecial(s[0]) && NoSpecials(s[1..]);
    }
  }

  /** The output is unchanged exactly when the input has none of the five characters. */
  lemma UnchangedIff(s: string)
    ensures EscapeXml(s) == s <==> NoSpecials(s)
  {
    EscapeXmlIsEscapeEach(s);
    EscapeEachLength(s);
    if NoSpecials(s) { NoSpecialsUnchanged(s); }
  }

  /** Escaping is not idempotent: it is a fixed point of a second escape only when nothing needed escaping. */
  lemma EscapeTwiceIff(s: string)
    ensures EscapeXml(EscapeXml(s)) == EscapeXml(s) <==> NoSpecials(s)
  {
    EscapeXmlIsEscapeEach(s);
    EscapeEachLength(s);
    UnchangedIff(EscapeXml(s));
    UnchangedIff(s);
  }

  /** An `&` followed by text that needs no escaping becomes `&amp;` followed by that text. */
  lemma EscapeAmpThen(t: string)
    requires NoSpecials(t)
    ensures EscapeXml(['&'] + t) == "&amp;" + t
  {
    EscapeXmlAppend(['&'], t);
    EscapeAmp('&');
    NoSpecialsUnchanged(t);
  }

  /**
   * The second escape in action: an `&` (followed by text that needs no
   * escaping) becomes `&amp;` and then `&amp;amp;`.
   */
  lemma AmpersandEscapedTwice(t: string)
    requires NoSpecials(t)
    ensures EscapeXml(['&'] + t) == "&amp;" + t
    ensures EscapeXml(EscapeXml(['&'] + t)) == "&amp;amp;" + t
  {
    EscapeAmpThen(t);
    var tail := "amp;" + t;
    NoSpecialsAppend("amp;", t);
    assert "&amp;" + t == ['&'] + tail;
    EscapeAmpThen(tail);
  }

  lemma NoSpecialsAppend(a: string, b: string)
    requires NoSpecials(a) && NoSpecials(b)
    ensures NoSpecials(a + b)
  {
    assert forall i :: |a| <= i < |a + b| ==> (a + b)[i] == b[i - |a|];
  }

  /** No raw `<`, `>`, `"` or `'` is left. */
  lemma {:induction false} NoRawSpecials(s: string)
    ensures forall i :: 0 <= i < |EscapeXml(s)| ==> EscapeXml(s)[i] !in "<>\"'"
  {
    EscapeXmlIsEscapeEach(s);
    EscapeEachNoRaw(s);
  }

  lemma {:induction false} EscapeEachNoRaw(s: string)
    ensures forall i :: 0 <= i < |EscapeEach(s)| ==> EscapeEach(s)[i] !in "<>\"'"
  {
    if s != [] {
      EscapeEachNoRaw(s[1..]);
      var e := EscapeChar(s[0]);
      assert forall i :: 0 <= i < |e| ==> e[i] !in "<>\"'";
      assert forall i :: |e| <= i < |EscapeEach(s)| ==> EscapeEach(s)[i] == EscapeEach(s[1..])[i - |e|];
    }
  }

  /** One of the five entities starts at index `i`. */
  predicate EntityAt(t: string, i: int)
  {
    OccursAt(t, "&amp;", i) || OccursAt(t, "&lt;", i) || OccursAt(t, "&gt;", i)
    || OccursAt(t, "&quot;", i) || OccursAt(t, "&apos;", i)
  }

  lemma OccursShift(pre: string, u: string, p: string, j: int)
    requires OccursAt(u, p, j)
    ensures OccursAt(pre + u, p, j + |pre|)
  {
    assert (pre + u)[j + |pre|..j + |pre| + |p|] == u[j..j + |p|];
  }

  lemma EntityShift(pre: string, u: string, j: int)
    requires EntityAt(u, j)
    ensures EntityAt(pre + u, j + |pre|)
  {
    if OccursAt(u, "&amp;", j) { OccursShift(pre, u, "&amp;", j); }
    if OccursAt(u, "&lt;", j) { OccursShift(pre, u, "&lt;", j); }
    if OccursAt(u, "&gt;", j) { OccursShift(pre, u, "&gt;", j); }
    if OccursAt(u, "&quot;", j) { OccursShift(pre, u, "&quot;", j); }
    if OccursAt(u, "&apos;", j) { OccursShift(pre, u, "&apos;", j); }
  }

  lemma EntityHead(c: char, u: string)
    requires IsSpecial(c)
    ensures EntityAt(EscapeChar(c) + u, 0)
  {
    var e := EscapeChar(c);
    assert (e + u)[0..|e|] == e;
  }

  /** Every `&` left in the output begins one of the five entities, because `&` was replaced first. */
  lemma {:induction false} AmpersandsBeginEntities(s: string)
    ensures forall i :: 0 <= i < |EscapeXml(s)| && EscapeXml(s)[i] == '&' ==> EntityAt(EscapeXml(s), i)
  {
    EscapeXmlIsEscapeEach(s);
    EscapeEachEntities(s);
  }

  lemma {:induction false} EscapeEachEntities(s: string)
    ensures forall i :: 0 <= i < |EscapeEach(s)| && EscapeEach(s)[i] == '&' ==> EntityAt(EscapeEach(s), i)
  {
    if s != [] {
      var e, u := EscapeChar(s[0]), EscapeEach(s[1..]);
      EscapeEachEntities(s[1..]);
      assert EscapeEach(s) == e + u;
      forall i | 0 <= i < |e + u| && (e + u)[i] == '&' ensures EntityAt(e + u, i) {
        if i < |e| {
          assert e[i] == '&';
          EntityHead(s[0], u);
        } else {
          assert u[i - |e|] == '&';
          EntityShift(e, u, i - |e|);
        }
      }
    }
  }

  /** `t` starts with `p`. */
  predicate StartsWith(t: string, p: string)
  {
    |p| <= |t| && t[..|p|] == p
  }

  /** Decoding the five entities, left to right; any other character is copied. */
  function UnescapeXml(t: string): string
    decreases |t|
  {
    if t == [] then []
    else if StartsWith(t, "&amp;") then "&" + UnescapeXml(t[5..])
    else if StartsWith(t, "&lt;") then "<" + UnescapeXml(t[4..])
    else if StartsWith(t, "&gt;") then ">" + UnescapeXml(t[4..])
    else if StartsWith(t, "&quot;") then "\"" + UnescapeXml(t[6..])
    else if StartsWith(t, "&apos;") then "'" + UnescapeXml(t[6..])
    else [t[0]] + UnescapeXml(t[1..])
  }

  /** `t` differs from `p` at index `i`, so it does not start with `p`. */
  lemma DiffersAt(t: string, p: string, i: nat)
    requires i < |p| && i < |t| && t[i] != p[i]
    ensures !StartsWith(t, p)
  {
    assert |p| <= |t| ==> t[..|p|][i] == t[i];
  }

  lemma Prefixed(e: string, u: string)
    ensures StartsWith(e + u, e) && (e + u)[|e|..] == u
  {
    assert (e + u)[..|e|] == e;
  }

  lemma UnescapeChar(c: char, u: string)
    ensures UnescapeXml(EscapeChar(c) + u) == [c] + UnescapeXml(u)
  {
    var e := EscapeChar(c);
    var t := e + u;
    Prefixed(e, u);
    assert t[0] == e[0];
    if c == '&' {
    } else if c == '<' {
      assert t[1] == 'l';
      DiffersAt(t, "&amp;", 1);
    } else if c == '>' {
      assert t[1] == 'g';
      DiffersAt(t, "&amp;", 1);
      DiffersAt(t, "&lt;", 1);
    } else if c == '"' {
      assert t[1] == 'q';
      DiffersAt(t, "&amp;", 1);
      DiffersAt(t, "&lt;", 1);
      DiffersAt(t, "&gt;", 1);
    } else if c == '\'' {
      assert t[1] == 'a' && t[2] == 'p';
      DiffersAt(t, "&amp;", 2);
      DiffersAt(t, "&lt;", 1);
      DiffersAt(t, "&gt;", 1);
      DiffersAt(t, "&quot;", 1);
    } else {
      DiffersAt(t, "&amp;", 0);
      DiffersAt(t, "&lt;", 0);
      DiffersAt(t, "&gt;", 0);
      DiffersAt(t, "&quot;", 0);
      DiffersAt(t, "&apos;", 0);
    }
  }

  /** Decoding the entities recovers the input. */
  lemma {:induction false} UnescapeEscapeEach(s: string)
    ensures UnescapeXml(EscapeEach(s)) == s
  {
    if s != [] {
      UnescapeChar(s[0], EscapeEach(s[1..]));
      UnescapeEscapeEach(s[1..]);
    }
  }

  /** Round trip: decoding the five entities undoes `escape_xml`. */
  lemma UnescapeEscape(s: string)
    ensures UnescapeXml(EscapeXml(s)) == s
  {
    EscapeXmlIsEscapeEach(s);
    UnescapeEscapeEach(s);
  }

  /** So `escape_xml` is injective: different strings never escape to the same text. */
  lemma EscapeInjective(a: string, b: string)
    requires EscapeXml(a) == EscapeXml(b)
    ensures a == b
  {
    UnescapeEscape(a);
    UnescapeEscape(b);
  }
}
