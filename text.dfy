/**
 * The string built-ins the services lean on: `trim`, `toLowerCase`,
 * `includes`, the masked display form of a secret word
 * (`split("").map(...).join(" ")`) and the decimal form of a counter.
 */
module Text {

  /** The characters `String.prototype.trim` strips: ECMAScript WhiteSpace and LineTerminator. */
  predicate IsTrimmable(c: char) {
    || c == '\t' || c == '\n' || c == '\U{000B}' || c == '\U{000C}' || c == '\r' || c == ' '
    || c == '\U{00A0}' || c == '\U{1680}' || ('\U{2000}' <= c <= '\U{200A}')
    || c == '\U{2028}' || c == '\U{2029}' || c == '\U{202F}' || c == '\U{205F}'
    || c == '\U{3000}' || c == '\U{FEFF}'
  }

  /** Drops the leading trimmable characters. */
  function TrimStart(s: string): (r: string)
    ensures |r| <= |s|
  {
    if s != [] && IsTrimmable(s[0]) then TrimStart(s[1..]) else s
  }

  /** Drops the trailing trimmable characters. */
  function TrimEnd(s: string): (r: string)
    ensures |r| <= |s|
  {
    if s != [] && IsTrimmable(s[|s| - 1]) then TrimEnd(s[..|s| - 1]) else s
  }

  /** `s.trim()`. */
  function Trim(s: string): string {
    TrimEnd(TrimStart(s))
  }

  /** TrimStart drops exactly the leading run of trimmable characters. */
  lemma {:induction false} TrimStartDropsLeading(s: string)
    ensures TrimStart(s) == s[|s| - |TrimStart(s)|..]
    ensures TrimStart(s) == [] || !IsTrimmable(TrimStart(s)[0])
    ensures forall i :: 0 <= i < |s| - |TrimStart(s)| ==> IsTrimmable(s[i])
  {
    if s != [] && IsTrimmable(s[0]) {
      TrimStartDropsLeading(s[1..]);
      assert s[1..][|s| - 1 - |TrimStart(s)|..] == s[|s| - |TrimStart(s)|..];
      assert forall i :: 1 <= i < |s| - |TrimStart(s)| ==> s[1..][i - 1] == s[i];
    }
  }

  /** TrimEnd drops exactly the trailing run of trimmable characters. */
  lemma {:induction false} TrimEndDropsTrailing(s: string)
    ensures TrimEnd(s) == s[..|TrimEnd(s)|]
    ensures TrimEnd(s) == [] || !IsTrimmable(TrimEnd(s)[|TrimEnd(s)| - 1])
    ensures forall i :: |TrimEnd(s)| <= i < |s| ==> IsTrimmable(s[i])
  {
    if s != [] && IsTrimmable(s[|s| - 1]) {
      TrimEndDropsTrailing(s[..|s| - 1]);
    }
  }

  /**
   * `s.trim()` is the infix of s that starts at the first and ends at the
   * last non-trimmable character: everything cut off is trimmable, and
   * what is kept neither starts nor ends with a trimmable character.
   */
  lemma TrimKeepsInfix(s: string)
    ensures var a, r := |s| - |TrimStart(s)|, Trim(s);
      && a + |r| <= |s| && r == s[a..a + |r|]
      && (r == [] || (!IsTrimmable(r[0]) && !IsTrimmable(r[|r| - 1])))
      && (forall i :: 0 <= i < a ==> IsTrimmable(s[i]))
      && (forall i :: a + |r| <= i < |s| ==> IsTrimmable(s[i]))
  {
    var t := TrimStart(s);
    var a, r := |s| - |t|, Trim(s);
    TrimStartDropsLeading(s);
    TrimEndDropsTrailing(t);
    assert r == t[..|r|];
    assert forall i :: a + |r| <= i < |s| ==> s[i] == t[i - a];
  }

  /** Every character of ws is one `trim` strips. */
  predicate AllTrimmable(ws: string) {
    forall i :: 0 <= i < |ws| ==> IsTrimmable(ws[i])
  }

  lemma {:induction false} TrimStartPad(ws: string, x: string)
    requires AllTrimmable(ws)
    ensures TrimStart(ws + x) == TrimStart(x)
  {
    if ws != [] {
      assert IsTrimmable(ws[0]) && (ws + x)[0] == ws[0] && (ws + x)[1..] == ws[1..] + x;
      assert forall i :: 0 <= i < |ws| - 1 ==> ws[1..][i] == ws[i + 1];
      TrimStartPad(ws[1..], x);
    } else {
      assert ws + x == x;
    }
  }

  lemma {:induction false} TrimEndPad(x: string, ws: string)
    requires AllTrimmable(ws)
    ensures TrimEnd(x + ws) == TrimEnd(x)
  {
    if ws != [] {
      var xs := x + ws;
      assert IsTrimmable(ws[|ws| - 1]) && xs[|xs| - 1] == ws[|ws| - 1];
      assert xs[..|xs| - 1] == x + ws[..|ws| - 1];
      TrimEndPad(x, ws[..|ws| - 1]);
    } else {
      assert x + ws == x;
    }
  }

  lemma {:induction false} TrimStartAppend(s: string, t: string)
    requires TrimStart(s) != []
    ensures TrimStart(s + t) == TrimStart(s) + t
  {
    assert (s + t)[0] == s[0];
    if IsTrimmable(s[0]) {
      assert (s + t)[1..] == s[1..] + t;
      TrimStartAppend(s[1..], t);
    }
  }

  /** Whitespace around a text does not change what `trim` keeps. */
  lemma TrimIgnoresPadding(ws: string, s: string, ws': string)
    requires AllTrimmable(ws) && AllTrimmable(ws')
    ensures Trim(ws + s + ws') == Trim(s)
  {
    assert ws + s + ws' == ws + (s + ws');
    TrimStartPad(ws, s + ws');
    TrimStartDropsLeading(s);
    if TrimStart(s) == [] {
      TrimStartPad(s, ws');
      TrimStartPad(ws', []);
      assert ws' + [] == ws';
    } else {
      TrimStartAppend(s, ws');
      TrimEndPad(TrimStart(s), ws');
    }
  }

  predicate IsUpper(c: char) {
    'A' <= c <= 'Z'
  }

  /** `toLowerCase` on one character (ASCII letters only). */
  function LowerChar(c: char): (d: char)
    ensures !IsUpper(d)
    ensures IsUpper(c) ==> d as int == c as int + 32
    ensures !IsUpper(c) ==> d == c
  {
    if IsUpper(c) then (c as int + 32) as char else c
  }

  /** `s.toLowerCase()` (ASCII letters only): same length, no upper-case letter left. */
  function ToLower(s: string): (r: string)
    ensures |r| == |s|
    ensures forall i :: 0 <= i < |s| ==> r[i] == LowerChar(s[i])
  {
    seq(|s|, i requires 0 <= i < |s| => LowerChar(s[i]))
  }

  lemma {:induction false} LowerTrimStart(s: string)
    ensures ToLower(TrimStart(s)) == TrimStart(ToLower(s))
  {
    if s != [] {
      assert ToLower(s)[1..] == ToLower(s[1..]);
      LowerTrimStart(s[1..]);
    }
  }

  lemma {:induction false} LowerTrimEnd(s: string)
    ensures ToLower(TrimEnd(s)) == TrimEnd(ToLower(s))
  {
    if s != [] {
      assert ToLower(s)[..|s| - 1] == ToLower(s[..|s| - 1]);
      LowerTrimEnd(s[..|s| - 1]);
    }
  }

  /** Lower-casing never makes or unmakes whitespace, so it commutes with `trim`. */
  lemma LowerCommutesWithTrim(s: string)
    ensures ToLower(Trim(s)) == Trim(ToLower(s))
  {
    LowerTrimEnd(TrimStart(s));
    LowerTrimStart(s);
  }

  /** `needle` occurs in `hay` starting at index i. */
  predicate Occurs(hay: string, needle: string, i: int) {
    0 <= i && i + |needle| <= |hay| && hay[i..i + |needle|] == needle
  }

  /** `hay.includes(needle)`, computed the way a left-to-right scan does it. */
  function Includes(hay: string, needle: string): (b: bool)
    ensures b <==> exists i :: Occurs(hay, needle, i)
    decreases |hay|
  {
    if |needle| > |hay| then
      assert forall i :: !Occurs(hay, needle, i);
      false
    else if hay[..|needle|] == needle then
      assert Occurs(hay, needle, 0);
      true
    else
      var rest := Includes(hay[1..], needle);
      assert forall i :: Occurs(hay[1..], needle, i) <==> Occurs(hay, needle, i + 1);
      assert !Occurs(hay, needle, 0);
      assert forall i :: Occurs(hay, needle, i) ==> i == 0 || Occurs(hay[1..], needle, i - 1);
      rest
  }

  /** The placeholder a character of the secret is shown as: a space stays a space. */
  function Glyph(c: char): (g: char)
    ensures g == '_' || g == ' '
    ensures g == ' ' <==> c == ' '
  {
    if c == ' ' then ' ' else '_'
  }

  /**
   * `w.split("").map(c => c === " " ? " " : "_").join(" ")`: one glyph per
   * character, glyphs separated by single spaces.
   */
  function Mask(w: string): (r: string)
    ensures w == [] ==> r == []
    ensures w != [] ==> |r| == 2 * |w| - 1
    ensures forall i :: 0 <= i < |w| ==> r[2 * i] == Glyph(w[i])
    ensures forall j :: 0 <= j < |r| && j % 2 == 1 ==> r[j] == ' '
    ensures forall j :: 0 <= j < |r| ==> r[j] == '_' || r[j] == ' '
  {
    if w == [] then []
    else seq(2 * |w| - 1, j requires 0 <= j < 2 * |w| - 1 => if j % 2 == 0 then Glyph(w[j / 2]) else ' ')
  }

  /**
   * The mask depends only on the length of the word and where its spaces
   * are: two words with the same layout are shown identically.
   */
  lemma MaskRevealsOnlyLayout(a: string, b: string)
    requires |a| == |b|
    requires forall i :: 0 <= i < |a| ==> (a[i] == ' ' <==> b[i] == ' ')
    ensures Mask(a) == Mask(b)
  {
    assert forall j :: 0 <= j < |Mask(a)| ==> Mask(a)[j] == Mask(b)[j];
  }

  /** Decimal digit of d, d < 10. */
  function Digit(d: nat): (c: char)
    requires d < 10
    ensures '0' <= c <= '9'
  {
    ('0' as int + d) as char
  }

  /** The number a string of decimal digits denotes, most significant digit first. */
  function DigitsValue(s: string): int {
    if s == [] then 0 else 10 * DigitsValue(s[..|s| - 1]) + (s[|s| - 1] as int - '0' as int)
  }

  /** `n.toString()` for a non-negative integer: its digits, without leading zeros, denote n. */
  function Decimal(n: nat): (r: string)
    ensures 1 <= |r|
    ensures n >= 10 <==> |r| >= 2
    ensures forall i :: 0 <= i < |r| ==> '0' <= r[i] <= '9'
    ensures |r| >= 2 ==> r[0] != '0'
    ensures DigitsValue(r) == n
  {
    if n < 10 then [Digit(n)]
    else
      var r := Decimal(n / 10) + [Digit(n % 10)];
      assert r[..|r| - 1] == Decimal(n / 10);
      r
  }

  /** Distinct numbers have distinct decimal forms. */
  lemma DecimalInjective(a: nat, b: nat)
    requires Decimal(a) == Decimal(b)
    ensures a == b
  {
  }
}
