/**
  The few JavaScript string operations the evaluators use: whitespace as
  `String.prototype.trim` understands it, trimming, prefix/suffix/substring tests,
  ASCII digits and the decimal rendering of integers.
*/
module JsStrings {

  /** WhiteSpace or LineTerminator of ECMAScript: what `trim` removes and `\s` matches. */
  predicate IsJsSpace(c: char)
  {
    || c == '\t' || c == '\n' || c == '\U{000B}' || c == '\U{000C}' || c == '\r' || c == ' '
    || c == '\U{00A0}' || c == '\U{1680}' || ('\U{2000}' <= c <= '\U{200A}')
    || c == '\U{2028}' || c == '\U{2029}' || c == '\U{202F}' || c == '\U{205F}'
    || c == '\U{3000}' || c == '\U{FEFF}'
  }

  /** LineTerminator of ECMAScript: the characters a regular-expression `.` does not match. */
  predicate IsLineTerminator(c: char)
  {
    c == '\n' || c == '\r' || c == '\U{2028}' || c == '\U{2029}'
  }

  predicate AllSpace(s: string)
  {
    forall i :: 0 <= i < |s| ==> IsJsSpace(s[i])
  }

  /** `s` with its leading whitespace removed: a suffix of `s` that does not start with whitespace. */
  function TrimStart(s: string): (r: string)
  {
    if |s| > 0 && IsJsSpace(s[0]) then TrimStart(s[1..]) else s
  }

  /** `s` with its trailing whitespace removed: a prefix of `s` that does not end with whitespace. */
  function TrimEnd(s: string): (r: string)
  {
    if |s| > 0 && IsJsSpace(s[|s| - 1]) then TrimEnd(s[..|s| - 1]) else s
  }

  /** `String.prototype.trim`. */
  function Trim(s: string): string
  {
    TrimEnd(TrimStart(s))
  }

  /** `trimStart` removes a prefix of whitespace and stops at non-whitespace. */
  lemma {:induction false} TrimStartShape(s: string)
    ensures var r := TrimStart(s);
            && |r| <= |s| && r == s[|s| - |r|..]
            && AllSpace(s[..|s| - |r|])
            && (|r| > 0 ==> !IsJsSpace(r[0]))
  {
    if |s| > 0 && IsJsSpace(s[0]) {
      var tail := s[1..];
      TrimStartShape(tail);
      var r := TrimStart(tail);
      var n := |s| - |r|;
      assert tail[|tail| - |r|..] == s[n..];
      forall i | 0 <= i < n
        ensures IsJsSpace(s[..n][i])
      {
        if i > 0 {
          assert s[..n][i] == tail[..|tail| - |r|][i - 1];
        }
      }
    } else {
      assert s[..0] == [];
    }
  }

  /** `trimEnd` removes a suffix of whitespace and stops at non-whitespace. */
  lemma {:induction false} TrimEndShape(s: string)
    ensures var r := TrimEnd(s);
            && |r| <= |s| && r == s[..|r|]
            && AllSpace(s[|r|..])
            && (|r| > 0 ==> !IsJsSpace(r[|r| - 1]))
  {
    if |s| > 0 && IsJsSpace(s[|s| - 1]) {
      var init := s[..|s| - 1];
      TrimEndShape(init);
      var r := TrimEnd(init);
      assert init[..|r|] == s[..|r|];
      forall i | 0 <= i < |s| - |r|
        ensures IsJsSpace(s[|r|..][i])
      {
        if i < |s| - 1 - |r| {
          assert s[|r|..][i] == init[|r|..][i];
        }
      }
    } else {
      assert s[|s|..] == [];
    }
  }

  /** Trimming strips whitespace only, from both ends. */
  lemma TrimShape(s: string)
    ensures exists i, j :: 0 <= i <= j <= |s| && Trim(s) == s[i..j] && AllSpace(s[..i]) && AllSpace(s[j..])
  {
    var t := TrimStart(s);
    TrimStartShape(s);
    TrimEndShape(t);
    var i := |s| - |t|;
    var j := i + |TrimEnd(t)|;
    assert t == s[i..];
    assert Trim(s) == s[i..j];
    assert AllSpace(s[..i]);
    assert s[j..] == t[|TrimEnd(t)|..];
    assert AllSpace(s[j..]);
  }

  /** A trimmed string starts and ends with non-whitespace. */
  lemma TrimEnds(s: string)
    ensures |Trim(s)| > 0 ==> !IsJsSpace(Trim(s)[0]) && !IsJsSpace(Trim(s)[|Trim(s)| - 1])
  {
    var t := TrimStart(s);
    TrimStartShape(s);
    TrimEndShape(t);
    assert TrimEnd(t) == t[..|TrimEnd(t)|];
  }

  /** Trimming never lengthens. */
  lemma TrimLength(s: string)
    ensures |Trim(s)| <= |s|
  {
    TrimStartShape(s);
    TrimEndShape(TrimStart(s));
  }

  /** Trimming a trimmed string changes nothing. */
  lemma TrimIdempotent(s: string)
    ensures Trim(Trim(s)) == Trim(s)
  {
    TrimEnds(s);
  }

  /** A string that starts and ends with non-whitespace is its own trim. */
  lemma TrimOfTrimmed(s: string)
    requires |s| > 0 && !IsJsSpace(s[0]) && !IsJsSpace(s[|s| - 1])
    ensures Trim(s) == s
  {
  }

  /** Whitespace after a string that ends with non-whitespace is exactly what `trimEnd` removes. */
  lemma {:induction false} TrimEndSpaces(p: string, ws: string)
    requires |p| > 0 && !IsJsSpace(p[|p| - 1]) && AllSpace(ws)
    ensures TrimEnd(p + ws) == p
    decreases |ws|
  {
    if |ws| == 0 {
      assert p + ws == p;
    } else {
      var init := ws[..|ws| - 1];
      assert (p + ws)[..|p + ws| - 1] == p + init;
      TrimEndSpaces(p, init);
    }
  }

  /** Whitespace before a string that starts with non-whitespace is exactly what `trimStart` removes. */
  lemma {:induction false} TrimStartSpaces(ws: string, p: string)
    requires AllSpace(ws) && (|p| > 0 ==> !IsJsSpace(p[0]))
    ensures TrimStart(ws + p) == p
    decreases |ws|
  {
    if |ws| == 0 {
      assert ws + p == p;
    } else {
      assert (ws + p)[1..] == ws[1..] + p;
      TrimStartSpaces(ws[1..], p);
    }
  }

  /** Trimming removes exactly the whitespace around a text that starts and ends with
      non-whitespace. */
  lemma TrimPadded(w1: string, core: string, w2: string)
    requires AllSpace(w1) && AllSpace(w2)
    requires |core| > 0 && !IsJsSpace(core[0]) && !IsJsSpace(core[|core| - 1])
    ensures Trim(w1 + core + w2) == core
  {
    assert w1 + core + w2 == w1 + (core + w2);
    TrimStartSpaces(w1, core + w2);
    TrimEndSpaces(core, w2);
  }

  predicate StartsWith(s: string, prefix: string)
  {
    |prefix| <= |s| && s[..|prefix|] == prefix
  }

  predicate EndsWith(s: string, suffix: string)
  {
    |suffix| <= |s| && s[|s| - |suffix|..] == suffix
  }

  /** `String.prototype.includes`: `part` occurs somewhere in `s`. */
  predicate Contains(s: string, part: string)
  {
    StartsWith(s, part) || (|s| > 0 && Contains(s[1..], part))
  }

  /** A part found at some offset is contained. */
  lemma {:induction false} ContainsAt(s: string, part: string, k: nat)
    requires k + |part| <= |s| && s[k..k + |part|] == part
    ensures Contains(s, part)
  {
    if k > 0 {
      assert s[1..][k - 1..k - 1 + |part|] == s[k..k + |part|];
      ContainsAt(s[1..], part, k - 1);
    } else {
      assert s[..|part|] == part;
    }
  }

  /** A one-character part occurs exactly when the character does. */
  lemma {:induction false} ContainsChar(s: string, c: char)
    ensures Contains(s, [c]) <==> c in s
  {
    if |s| > 0 {
      ContainsChar(s[1..], c);
      assert s == [s[0]] + s[1..];
    }
  }

  predicate IsDigit(c: char)
  {
    '0' <= c <= '9'
  }

  function DigitChar(d: nat): (c: char)
    requires d < 10
    ensures IsDigit(c)
  {
    ['0', '1', '2', '3', '4', '5', '6', '7', '8', '9'][d]
  }

  /** The value of a string of ASCII digits. */
  function DigitsValue(s: string): nat
    requires forall i :: 0 <= i < |s| ==> IsDigit(s[i])
  {
    if |s| == 0 then 0
    else
      var d := s[|s| - 1];
      assert IsDigit(d);
      10 * DigitsValue(s[..|s| - 1]) + (d as int - '0' as int)
  }

  /** A canonical array index: decimal digits without a leading zero, as `String(i)`
      renders an index `i`. */
  predicate IsIndexKey(key: string)
  {
    && |key| >= 1
    && (forall i :: 0 <= i < |key| ==> IsDigit(key[i]))
    && (|key| > 1 ==> key[0] != '0')
  }

  /** The decimal rendering of a natural number, as `String(n)` gives it. */
  function NatToDecimal(n: nat): (r: string)
    ensures |r| >= 1 && (forall i :: 0 <= i < |r| ==> IsDigit(r[i]))
    ensures |r| > 1 ==> r[0] != '0'
    ensures DigitsValue(r) == n
  {
    if n < 10 then [DigitChar(n)]
    else
      var r := NatToDecimal(n / 10) + [DigitChar(n % 10)];
      assert r[..|r| - 1] == NatToDecimal(n / 10);
      r
  }

  /** `String(i)` for an integer. */
  function IntToDecimal(i: int): string
  {
    if i < 0 then "-" + NatToDecimal(-i) else NatToDecimal(i)
  }
}
