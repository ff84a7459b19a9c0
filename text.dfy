/** The optional value both scorers use where JavaScript has `null` or `undefined`. */
module Options {

  datatype Option<+T> = None | Some(value: T)
  {
    function GetOr(default: T): T {
      match this
      case Some(v) => v
      case None => default
    }
  }
}

/**
 * String helpers shared by the checklist engine and the framework scorer:
 * ASCII lower-casing, substring search, decimal rendering of counts and
 * scores, the greedy `{...}` span that both response parsers extract, and
 * the global single-character replacement that both HTML escapers chain.
 */
module Text {
  import opened Options

  // ---------------------------------------------------------------------
  // Lower-casing and substring search
  // ---------------------------------------------------------------------

  predicate IsUpper(c: char) { 'A' <= c <= 'Z' }

  function LowerChar(c: char): char {
    if IsUpper(c) then (c as int + 32) as char else c
  }

  /** `String.prototype.toLowerCase`, restricted to ASCII letters. */
  function ToLower(s: string): (r: string)
    ensures |r| == |s|
    ensures forall i :: 0 <= i < |s| ==> r[i] == LowerChar(s[i])
    ensures forall i :: 0 <= i < |r| ==> !IsUpper(r[i])
  {
    seq(|s|, i requires 0 <= i < |s| => LowerChar(s[i]))
  }

  /** Lower-casing twice is lower-casing once. */
  lemma LowerIdempotent(s: string)
    ensures ToLower(ToLower(s)) == ToLower(s)
  {
    forall i | 0 <= i < |s|
      ensures ToLower(ToLower(s))[i] == ToLower(s)[i]
    {
      assert ToLower(ToLower(s))[i] == LowerChar(LowerChar(s[i]));
    }
  }

  predicate StartsWith(s: string, prefix: string) {
    |prefix| <= |s| && s[..|prefix|] == prefix
  }

  /** `String.prototype.includes`: `sub` occurs somewhere in `s`. */
  predicate Contains(s: string, sub: string)
    decreases |s|
  {
    StartsWith(s, sub) || (|s| > 0 && Contains(s[1..], sub))
  }

  /** `Contains` holds exactly when `sub` occurs at some offset of `s`. */
  lemma {:induction false} ContainsAt(s: string, sub: string, k: nat)
    requires k + |sub| <= |s| && s[k..k + |sub|] == sub
    ensures Contains(s, sub)
    decreases k
  {
    if k == 0 {
      assert s[..|sub|] == s[k..k + |sub|];
    } else {
      assert s[1..][k - 1..k - 1 + |sub|] == s[k..k + |sub|];
      ContainsAt(s[1..], sub, k - 1);
    }
  }

  lemma {:induction false} ContainsWitness(s: string, sub: string) returns (k: nat)
    requires Contains(s, sub)
    ensures k + |sub| <= |s| && s[k..k + |sub|] == sub
    decreases |s|
  {
    if StartsWith(s, sub) {
      k := 0;
    } else {
      var k' := ContainsWitness(s[1..], sub);
      k := k' + 1;
      assert s[k..k + |sub|] == s[1..][k'..k' + |sub|];
    }
  }

  /** A lower-case letter absent from `s` in both cases is absent from `ToLower(s)`. */
  lemma LowerLacks(s: string, c: char)
    requires 'a' <= c <= 'z' && c !in s && (c as int - 32) as char !in s
    ensures c !in ToLower(s)
  {
    forall i | 0 <= i < |s|
      ensures ToLower(s)[i] != c
    {
      assert s[i] != c && s[i] != (c as int - 32) as char;
    }
  }

  /** A text lacking one of the characters of `sub` does not contain `sub`. */
  lemma MissingChar(s: string, sub: string, c: char)
    requires c in sub && c !in s
    ensures !Contains(s, sub)
  {
    if Contains(s, sub) {
      var k := ContainsWitness(s, sub);
    }
  }

  // ---------------------------------------------------------------------
  // Decimal rendering of non-negative integers (template literals `${n}`)
  // ---------------------------------------------------------------------

  predicate IsDigit(c: char) { '0' <= c <= '9' }

  function DigitChar(d: nat): (c: char)
    requires d < 10
    ensures IsDigit(c) && c as int - '0' as int == d
  {
    ('0' as int + d) as char
  }

  /** The shortest decimal spelling of `n`, as `String(n)` gives it. */
  function NatToString(n: nat): (s: string)
    ensures 1 <= |s|
    ensures forall i :: 0 <= i < |s| ==> IsDigit(s[i])
    ensures |s| > 1 ==> s[0] != '0'
    decreases n
  {
    if n < 10 then [DigitChar(n)] else NatToString(n / 10) + [DigitChar(n % 10)]
  }

  /** Reads a string of decimal digits back as a number (the partner of `NatToString`). */
  function ParseDigits(s: string): nat
    requires forall i :: 0 <= i < |s| ==> IsDigit(s[i])
    decreases |s|
  {
    if s == [] then 0
    else 10 * ParseDigits(s[..|s| - 1]) + DigitValue(s[|s| - 1])
  }

  function DigitValue(c: char): nat
    requires IsDigit(c)
  {
    c as int - '0' as int
  }

  lemma {:induction false} ParseNatToString(n: nat)
    ensures ParseDigits(NatToString(n)) == n
    decreases n
  {
    var s := NatToString(n);
    if n >= 10 {
      ParseNatToString(n / 10);
      assert s[..|s| - 1] == NatToString(n / 10);
    }
  }

  /** Different numbers are spelled differently. */
  lemma NatToStringInjective(m: nat, n: nat)
    requires NatToString(m) == NatToString(n)
    ensures m == n
  {
    ParseNatToString(m);
    ParseNatToString(n);
  }

  // ---------------------------------------------------------------------
  // The greedy `/\{[\s\S]*\}/` match used by both response parsers
  // ---------------------------------------------------------------------

  /** Position of the first `c` in `s`. */
  function FirstIndex(s: string, c: char): (r: Option<nat>)
    ensures r.Some? ==> r.value < |s| && s[r.value] == c && c !in s[..r.value]
    ensures r.None? ==> c !in s
    decreases |s|
  {
    if s == [] then None
    else if s[0] == c then Some(0)
    else match FirstIndex(s[1..], c)
      case None => None
      case Some(k) => Some(k + 1)
  }

  /** Position of the last `c` in `s`. */
  function LastIndex(s: string, c: char): (r: Option<nat>)
    ensures r.Some? ==> r.value < |s| && s[r.value] == c && c !in s[r.value + 1..]
    ensures r.None? ==> c !in s
    decreases |s|
  {
    if s == [] then None
    else if s[|s| - 1] == c then Some(|s| - 1)
    else
      var r := LastIndex(s[..|s| - 1], c);
      assert r.None? ==> s == s[..|s| - 1] + [s[|s| - 1]];
      r
  }

  /**
   * The text a greedy `\{[\s\S]*\}` regular expression matches: from the
   * first `{` to the last `}` that follows it, or nothing when no `}`
   * follows any `{`.
   */
  function BraceSpan(t: string): (r: Option<string>)
    ensures r.Some? <==> exists i, j :: 0 <= i < j < |t| && t[i] == '{' && t[j] == '}'
    ensures r.Some? ==>
      exists i :: 0 <= i && i + |r.value| <= |t| && r.value == t[i..i + |r.value|]
        && '{' !in t[..i] && '}' !in t[i + |r.value|..]
    ensures r.Some? ==> 2 <= |r.value| && r.value[0] == '{' && r.value[|r.value| - 1] == '}'
  {
    match (FirstIndex(t, '{'), LastIndex(t, '}'))
    case (Some(i), Some(j)) =>
      if i < j then
        assert t[i..j + 1][0] == t[i] && t[i..j + 1][j - i] == t[j];
        Some(t[i..j + 1])
      else
        NoSpan(t, i, j);
        None
    case _ =>
      None
  }

  lemma NoSpan(t: string, i: nat, j: nat)
    requires i < |t| && j < |t| && j <= i
    requires '{' !in t[..i] && '}' !in t[j + 1..] && t[i] == '{'
    ensures !exists a, b :: 0 <= a < b < |t| && t[a] == '{' && t[b] == '}'
  {
    forall a, b | 0 <= a < b < |t|
      ensures !(t[a] == '{' && t[b] == '}')
    {
      if a < i {
        assert t[a] == t[..i][a];
      } else {
        assert t[b] == t[j + 1..][b - j - 1];
      }
    }
  }

  // ---------------------------------------------------------------------
  // `String.prototype.replace` with a global one-character pattern
  // ---------------------------------------------------------------------

  /** Every occurrence of `c` in `s` replaced by `rep`, scanning left to right. */
  function ReplaceAll(s: string, c: char, rep: string): string
    decreases |s|
  {
    if s == [] then []
    else (if s[0] == c then rep else [s[0]]) + ReplaceAll(s[1..], c, rep)
  }

  lemma {:induction false} ReplaceAllAppend(x: string, y: string, c: char, rep: string)
    ensures ReplaceAll(x + y, c, rep) == ReplaceAll(x, c, rep) + ReplaceAll(y, c, rep)
    decreases |x|
  {
    if x != [] {
      assert x + y != [];
      assert (x + y)[0] == x[0] && (x + y)[1..] == x[1..] + y;
      ReplaceAllAppend(x[1..], y, c, rep);
    } else {
      assert x + y == y;
    }
  }

  lemma {:induction false} ReplaceAllAbsent(s: string, c: char, rep: string)
    requires c !in s
    ensures ReplaceAll(s, c, rep) == s
    decreases |s|
  {
    if s != [] {
      assert c !in s[1..];
      ReplaceAllAbsent(s[1..], c, rep);
    }
  }

  /** After a replacement whose text avoids `c`, no `c` is left. */
  lemma {:induction false} ReplaceAllRemoves(s: string, c: char, rep: string)
    requires c !in rep
    ensures c !in ReplaceAll(s, c, rep)
    decreases |s|
  {
    if s != [] {
      ReplaceAllRemoves(s[1..], c, rep);
    }
  }

  // ---------------------------------------------------------------------
  // Chained global replacements: `s.replace(/a/g, x).replace(/b/g, y)...`
  // ---------------------------------------------------------------------

  /** The replacements applied one after another, each to the whole result of the previous one. */
  function ReplaceEach(s: string, pairs: seq<(char, string)>): string
    decreases |pairs|
  {
    if pairs == [] then s else ReplaceEach(ReplaceAll(s, pairs[0].0, pairs[0].1), pairs[1..])
  }

  lemma {:induction false} ReplaceEachAppend(x: string, y: string, pairs: seq<(char, string)>)
    ensures ReplaceEach(x + y, pairs) == ReplaceEach(x, pairs) + ReplaceEach(y, pairs)
    decreases |pairs|
  {
    if pairs != [] {
      var (c, rep) := pairs[0];
      ReplaceAllAppend(x, y, c, rep);
      ReplaceEachAppend(ReplaceAll(x, c, rep), ReplaceAll(y, c, rep), pairs[1..]);
    }
  }

  lemma {:induction false} ReplaceEachAbsent(s: string, pairs: seq<(char, string)>)
    requires forall i :: 0 <= i < |pairs| ==> pairs[i].0 !in s
    ensures ReplaceEach(s, pairs) == s
    decreases |pairs|
  {
    if pairs != [] {
      ReplaceAllAbsent(s, pairs[0].0, pairs[0].1);
      assert forall i :: 0 <= i < |pairs[1..]| ==> pairs[1..][i] == pairs[i + 1];
      ReplaceEachAbsent(s, pairs[1..]);
    }
  }

  /** What `c` becomes: the text of the first pair for it, or `c` itself. */
  function EntityFor(c: char, pairs: seq<(char, string)>): string
    decreases |pairs|
  {
    if pairs == [] then [c] else if pairs[0].0 == c then pairs[0].1 else EntityFor(c, pairs[1..])
  }

  /** No replacement text contains a character that a later replacement rewrites. */
  predicate Chainable(pairs: seq<(char, string)>) {
    forall i, j :: 0 <= i < j < |pairs| ==> pairs[j].0 !in pairs[i].1
  }

  lemma {:induction false} ReplaceEachChar(c: char, pairs: seq<(char, string)>)
    requires Chainable(pairs)
    ensures ReplaceEach([c], pairs) == EntityFor(c, pairs)
    decreases |pairs|
  {
    if pairs != [] {
      var rest := pairs[1..];
      assert forall i :: 0 <= i < |rest| ==> rest[i] == pairs[i + 1];
      assert [c][1..] == [];
      var rep := pairs[0].1;
      if pairs[0].0 == c {
        assert ReplaceAll([c], c, rep) == rep + ReplaceAll([], c, rep);
        assert rep + [] == rep;
        assert forall i :: 0 <= i < |rest| ==> rest[i].0 !in pairs[0].1;
        ReplaceEachAbsent(pairs[0].1, rest);
      } else {
        assert ReplaceAll([c], pairs[0].0, rep) == [c] + ReplaceAll([], pairs[0].0, rep);
        assert [c] + [] == [c];
        assert Chainable(rest) by {
          forall i, j | 0 <= i < j < |rest|
            ensures rest[j].0 !in rest[i].1
          {
            assert rest[j] == pairs[j + 1] && rest[i] == pairs[i + 1];
          }
        }
        ReplaceEachChar(c, rest);
      }
    }
  }

  /** Each character replaced by what it becomes, independently of its neighbours. */
  function EscapeWith(s: string, pairs: seq<(char, string)>): string
    decreases |s|
  {
    if s == [] then [] else EntityFor(s[0], pairs) + EscapeWith(s[1..], pairs)
  }

  /** Chained global replacements act character by character when no replacement text is rewritten later. */
  lemma {:induction false} ReplaceEachPerChar(s: string, pairs: seq<(char, string)>)
    requires Chainable(pairs)
    ensures ReplaceEach(s, pairs) == EscapeWith(s, pairs)
    decreases |s|
  {
    if s == [] {
      ReplaceEachAbsent(s, pairs);
    } else {
      assert s == [s[0]] + s[1..];
      ReplaceEachAppend([s[0]], s[1..], pairs);
      ReplaceEachChar(s[0], pairs);
      ReplaceEachPerChar(s[1..], pairs);
    }
  }

  // ---------------------------------------------------------------------
  // HTML entities
  // ---------------------------------------------------------------------

  /** The five replacements of the checklist's `escapeHtml`, in order; the framework page uses the first four. */
  const HtmlEntities: seq<(char, string)> :=
    [('&', "&amp;"), ('<', "&lt;"), ('>', "&gt;"), ('"', "&quot;"), ('\'', "&#039;")]

  lemma HtmlEntitiesChainable(k: nat)
    requires k <= |HtmlEntities|
    ensures Chainable(HtmlEntities[..k])
  {
  }

  /** Decodes the five entities back to their characters; everything else is kept. */
  function Unescape(t: string): string
    decreases |t|
  {
    if t == [] then []
    else if StartsWith(t, "&amp;") then "&" + Unescape(t[5..])
    else if StartsWith(t, "&lt;") then "<" + Unescape(t[4..])
    else if StartsWith(t, "&gt;") then ">" + Unescape(t[4..])
    else if StartsWith(t, "&quot;") then "\"" + Unescape(t[6..])
    else if StartsWith(t, "&#039;") then "'" + Unescape(t[6..])
    else [t[0]] + Unescape(t[1..])
  }

  /** What each character becomes under the first `k` HTML replacements. */
  lemma HtmlEntityFor(c: char, k: nat)
    requires 1 <= k <= |HtmlEntities|
    ensures EntityFor(c, HtmlEntities[..k]) ==
      if c == '&' then "&amp;"
      else if c == '<' && k >= 2 then "&lt;"
      else if c == '>' && k >= 3 then "&gt;"
      else if c == '"' && k >= 4 then "&quot;"
      else if c == '\'' && k >= 5 then "&#039;"
      else [c]
    decreases k
  {
    assert HtmlEntities[0] == ('&', "&amp;") && HtmlEntities[1] == ('<', "&lt;") && HtmlEntities[2] == ('>', "&gt;")
        && HtmlEntities[3] == ('"', "&quot;") && HtmlEntities[4] == ('\'', "&#039;");
    if k > 1 {
      var pre := HtmlEntities[..k - 1];
      HtmlEntityFor(c, k - 1);
      assert HtmlEntities[..k] == pre + [HtmlEntities[k - 1]];
      EntityForSnoc(c, pre, HtmlEntities[k - 1]);
      if exists i :: 0 <= i < |pre| && pre[i].0 == c {
        var i :| 0 <= i < |pre| && pre[i].0 == c;
        assert pre[i] == HtmlEntities[i];
        assert i == 0 || i == 1 || i == 2 || i == 3;
      } else {
        assert k == 2 || k == 3 || k == 4 || k == 5;
        forall j | 0 <= j < k - 1
          ensures HtmlEntities[j].0 != c
        {
          assert pre[j] == HtmlEntities[j];
        }
      }
    } else {
      assert HtmlEntities[..1][1..] == [];
    }
  }

  lemma {:induction false} EntityForSnoc(c: char, pairs: seq<(char, string)>, p: (char, string))
    ensures EntityFor(c, pairs + [p]) ==
      if exists i :: 0 <= i < |pairs| && pairs[i].0 == c then EntityFor(c, pairs)
      else if p.0 == c then p.1 else [c]
    decreases |pairs|
  {
    if pairs == [] {
      assert [p][1..] == [];
    } else {
      assert (pairs + [p])[1..] == pairs[1..] + [p];
      EntityForSnoc(c, pairs[1..], p);
      if pairs[0].0 != c {
        assert (exists i :: 0 <= i < |pairs| && pairs[i].0 == c)
          <==> (exists i :: 0 <= i < |pairs[1..]| && pairs[1..][i].0 == c) by {
          if exists i :: 0 <= i < |pairs| && pairs[i].0 == c {
            var i :| 0 <= i < |pairs| && pairs[i].0 == c;
            assert pairs[1..][i - 1].0 == c;
          }
          if exists i :: 0 <= i < |pairs[1..]| && pairs[1..][i].0 == c {
            var i :| 0 <= i < |pairs[1..]| && pairs[1..][i].0 == c;
            assert pairs[i + 1].0 == c;
          }
        }
      }
    }
  }

  lemma UnescapeAmp(rest: string)
    ensures Unescape("&amp;" + rest) == "&" + Unescape(rest)
  {
    var t := "&amp;" + rest;
    assert t[..5] == "&amp;" && t[5..] == rest;
  }

  lemma UnescapeLt(rest: string)
    ensures Unescape("&lt;" + rest) == "<" + Unescape(rest)
  {
    var t := "&lt;" + rest;
    assert t[..4] == "&lt;" && t[4..] == rest && t[1] == 'l';
    DiffersAt(t, "&amp;", 1);
  }

  lemma UnescapeGt(rest: string)
    ensures Unescape("&gt;" + rest) == ">" + Unescape(rest)
  {
    var t := "&gt;" + rest;
    assert t[..4] == "&gt;" && t[4..] == rest && t[1] == 'g';
    DiffersAt(t, "&amp;", 1);
    DiffersAt(t, "&lt;", 1);
  }

  lemma UnescapeQuot(rest: string)
    ensures Unescape("&quot;" + rest) == "\"" + Unescape(rest)
  {
    var t := "&quot;" + rest;
    assert t[..6] == "&quot;" && t[6..] == rest && t[1] == 'q';
    DiffersAt(t, "&amp;", 1);
    DiffersAt(t, "&lt;", 1);
    DiffersAt(t, "&gt;", 1);
  }

  lemma UnescapeApos(rest: string)
    ensures Unescape("&#039;" + rest) == "'" + Unescape(rest)
  {
    var t := "&#039;" + rest;
    assert t[..6] == "&#039;" && t[6..] == rest && t[1] == '#';
    DiffersAt(t, "&amp;", 1);
    DiffersAt(t, "&lt;", 1);
    DiffersAt(t, "&gt;", 1);
    DiffersAt(t, "&quot;", 1);
  }

  /** A text that differs from `e` at position `k` does not start with `e`. */
  lemma DiffersAt(t: string, e: string, k: nat)
    requires k < |e| && k < |t| && t[k] != e[k]
    ensures !StartsWith(t, e)
  {
    if |e| <= |t| {
      assert t[..|e|][k] == t[k];
    }
  }

  lemma UnescapePlain(c: char, rest: string)
    requires c != '&'
    ensures Unescape([c] + rest) == [c] + Unescape(rest)
  {
    var t := [c] + rest;
    assert t[0] == c && t[1..] == rest;
    assert !StartsWith(t, "&amp;") && !StartsWith(t, "&lt;") && !StartsWith(t, "&gt;")
        && !StartsWith(t, "&quot;") && !StartsWith(t, "&#039;") by {
      NotEntityStart(t, "&amp;");
      NotEntityStart(t, "&lt;");
      NotEntityStart(t, "&gt;");
      NotEntityStart(t, "&quot;");
      NotEntityStart(t, "&#039;");
    }
  }

  lemma NotEntityStart(t: string, e: string)
    requires t != [] && t[0] != '&' && e != [] && e[0] == '&'
    ensures !StartsWith(t, e)
  {
  }

  lemma UnescapeEntity(c: char, k: nat, rest: string)
    requires 1 <= k <= |HtmlEntities|
    ensures Unescape(EntityFor(c, HtmlEntities[..k]) + rest) == [c] + Unescape(rest)
  {
    HtmlEntityFor(c, k);
    if c == '&' {
      UnescapeAmp(rest);
    } else if c == '<' && k >= 2 {
      UnescapeLt(rest);
    } else if c == '>' && k >= 3 {
      UnescapeGt(rest);
    } else if c == '"' && k >= 4 {
      UnescapeQuot(rest);
    } else if c == '\'' && k >= 5 {
      UnescapeApos(rest);
    } else {
      UnescapePlain(c, rest);
    }
  }

  /** Unescaping undoes the replacements of any leading part of the entity list. */
  lemma {:induction false} UnescapeEscape(s: string, k: nat)
    requires 1 <= k <= |HtmlEntities|
    ensures Unescape(EscapeWith(s, HtmlEntities[..k])) == s
    decreases |s|
  {
    if s != [] {
      UnescapeEntity(s[0], k, EscapeWith(s[1..], HtmlEntities[..k]));
      UnescapeEscape(s[1..], k);
    }
  }

  /** After the first `k` replacements, none of the characters rewritten after `&` is left. */
  lemma {:induction false} EscapeRemoves(s: string, k: nat, j: nat)
    requires 1 <= j < k <= |HtmlEntities|
    ensures HtmlEntities[j].0 !in EscapeWith(s, HtmlEntities[..k])
    decreases |s|
  {
    if s != [] {
      HtmlEntityFor(s[0], k);
      EscapeRemoves(s[1..], k, j);
      assert j == 1 || j == 2 || j == 3 || j == 4;
    }
  }
}
