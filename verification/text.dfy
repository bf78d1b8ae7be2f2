/** Character-level text operations used by the diagnostic report:
    the four-entry HTML escape table, `sprintf` field padding and
    decimal rendering of frame numbers. Strings are `seq<char>`. */
module Text {

  /** The four characters the report's escape table rewrites. */
  predicate IsSpecial(c: char) {
    c == '&' || c == '"' || c == '<' || c == '>'
  }

  predicate NoSpecial(s: string) {
    forall i :: 0 <= i < |s| ==> !IsSpecial(s[i])
  }

  /** No raw `<`, `>` or `"` (an `&` may remain, as the head of an entity). */
  predicate NoRawMarkup(s: string) {
    forall i :: 0 <= i < |s| ==> s[i] != '<' && s[i] != '>' && s[i] != '"'
  }

  predicate NoNewline(s: string) {
    forall i :: 0 <= i < |s| ==> s[i] != '\n'
  }

  // ---------------------------------------------------------------------------
  // HTML escaping
  // ---------------------------------------------------------------------------

  /** One entry of the escape table; every other character maps to itself. */
  function EscapeChar(c: char): string {
    if c == '&' then "&amp;"
    else if c == '"' then "&quot;"
    else if c == '<' then "&lt;"
    else if c == '>' then "&gt;"
    else [c]
  }

  /** `gsub(/[&"<>]/, table)`: each character replaced by its table entry. */
  function Escape(s: string): (r: string)
    ensures |r| >= |s|
  {
    if s == [] then [] else EscapeChar(s[0]) + Escape(s[1..])
  }

  /** The escaped text holds no raw `<`, `>` or `"`, and no newline the
      input did not have. */
  lemma {:induction false} EscapeSafe(s: string)
    ensures NoRawMarkup(Escape(s))
    ensures NoNewline(s) ==> NoNewline(Escape(s))
    ensures Newlines(Escape(s)) == Newlines(s)
  {
    EscapeKeepsNewlines(s);
    if s != [] {
      EscapeSafe(s[1..]);
      var head, tail := EscapeChar(s[0]), Escape(s[1..]);
      assert Escape(s) == head + tail;
      CharSafe(s[0]);
      JoinSafe(head, tail);
    }
  }

  /** One escaped character holds no raw markup, and no newline unless it is one. */
  lemma CharSafe(c: char)
    ensures NoRawMarkup(EscapeChar(c))
    ensures c != '\n' ==> NoNewline(EscapeChar(c))
  {
    if c == '&' {
      assert EscapeChar(c) == "&amp;";
    } else if c == '"' {
      assert EscapeChar(c) == "&quot;";
    } else if c == '<' {
      assert EscapeChar(c) == "&lt;";
    } else if c == '>' {
      assert EscapeChar(c) == "&gt;";
    } else {
      assert EscapeChar(c) == [c];
    }
  }

  lemma JoinSafe(a: string, b: string)
    requires NoRawMarkup(a) && NoRawMarkup(b)
    ensures NoRawMarkup(a + b)
    ensures NoNewline(a) && NoNewline(b) ==> NoNewline(a + b)
  {
  }

  /** Escaping keeps the number of newlines exactly. */
  lemma {:induction false} EscapeKeepsNewlines(s: string)
    ensures Newlines(Escape(s)) == Newlines(s)
  {
    if s != [] {
      EscapeKeepsNewlines(s[1..]);
      var head, tail := EscapeChar(s[0]), Escape(s[1..]);
      assert Escape(s) == head + tail;
      NewlinesAppend(head, tail);
      NewlinesAppend([s[0]], s[1..]);
      assert [s[0]] + s[1..] == s;
      CharNewlines(s[0]);
    }
  }

  /** Escaping one character keeps its newline count. */
  lemma CharNewlines(c: char)
    ensures Newlines(EscapeChar(c)) == Newlines([c])
  {
    if c == '\n' {
      assert EscapeChar(c) == [c];
    } else {
      assert NoNewline(EscapeChar(c));
      NoNewlineCount(EscapeChar(c));
      NoNewlineCount([c]);
    }
  }

  /** The number of newlines in `s`. */
  function Newlines(s: string): nat {
    if s == [] then 0 else (if s[0] == '\n' then 1 else 0) + Newlines(s[1..])
  }

  lemma {:induction false} NoNewlineCount(t: string)
    requires NoNewline(t)
    ensures Newlines(t) == 0
  {
    if t != [] {
      NoNewlineCount(t[1..]);
    }
  }

  lemma {:induction false} NewlinesAppend(a: string, b: string)
    ensures Newlines(a + b) == Newlines(a) + Newlines(b)
  {
    if a == [] {
      assert a + b == b;
    } else {
      assert (a + b)[0] == a[0] && (a + b)[1..] == a[1..] + b;
      NewlinesAppend(a[1..], b);
    }
  }

  /** Reads the four entities back; anything else is copied through. */
  function Unescape(t: string): (r: string)
    ensures |r| <= |t|
    decreases |t|
  {
    if t == [] then []
    else if t[0] != '&' then [t[0]] + Unescape(t[1..])
    else if |t| >= 5 && t[1] == 'a' && t[2] == 'm' && t[3] == 'p' && t[4] == ';' then
      ['&'] + Unescape(t[5..])
    else if |t| >= 6 && t[1] == 'q' && t[2] == 'u' && t[3] == 'o' && t[4] == 't' && t[5] == ';' then
      ['"'] + Unescape(t[6..])
    else if |t| >= 4 && t[1] == 'l' && t[2] == 't' && t[3] == ';' then
      ['<'] + Unescape(t[4..])
    else if |t| >= 4 && t[1] == 'g' && t[2] == 't' && t[3] == ';' then
      ['>'] + Unescape(t[4..])
    else [t[0]] + Unescape(t[1..])
  }

  lemma {:induction false} EscapeAppend(a: string, b: string)
    ensures Escape(a + b) == Escape(a) + Escape(b)
  {
    if a == [] {
      assert a + b == b;
    } else {
      assert (a + b)[0] == a[0];
      assert (a + b)[1..] == a[1..] + b;
      EscapeAppend(a[1..], b);
    }
  }

  /** Unescaping the escaped text gives the original back. */
  lemma {:induction false} UnescapeEscape(s: string)
    ensures Unescape(Escape(s)) == s
  {
    if s != [] {
      UnescapeEscape(s[1..]);
      UnescapeStep(s[0], Escape(s[1..]));
      assert [s[0]] + s[1..] == s;
    }
  }

  /** Unescaping reads one table entry back off the front. */
  lemma UnescapeStep(c: char, rest: string)
    ensures Unescape(EscapeChar(c) + rest) == [c] + Unescape(rest)
  {
    var t := EscapeChar(c) + rest;
    if c == '&' {
      assert t[1..5] == "amp;" && t[5..] == rest;
    } else if c == '"' {
      assert t[1..6] == "quot;" && t[6..] == rest;
    } else if c == '<' {
      assert t[1..4] == "lt;" && t[4..] == rest;
    } else if c == '>' {
      assert t[1..4] == "gt;" && t[4..] == rest;
    } else {
      assert t[0] == c && t[1..] == rest;
    }
  }

  /** Escaping strictly lengthens any text holding one of the four characters. */
  lemma {:induction false} EscapeGrows(s: string)
    ensures !NoSpecial(s) ==> |Escape(s)| > |s|
  {
    if s != [] {
      EscapeGrows(s[1..]);
      if !NoSpecial(s) && !IsSpecial(s[0]) {
        var i :| 0 <= i < |s| && IsSpecial(s[i]);
        assert IsSpecial(s[1..][i - 1]);
      }
    }
  }

  /** Escaping changes a text exactly when it holds one of `& " < >`. */
  lemma {:induction false} EscapeIdentity(s: string)
    ensures Escape(s) == s <==> NoSpecial(s)
  {
    EscapeGrows(s);
    if s != [] && NoSpecial(s) {
      assert NoSpecial(s[1..]) by {
        forall i | 0 <= i < |s[1..]| ensures !IsSpecial(s[1..][i]) {
          assert s[1..][i] == s[i + 1];
        }
      }
      EscapeIdentity(s[1..]);
      assert Escape(s) == [s[0]] + s[1..];
    }
  }

  /** Result of looking for the first line end. */
  datatype Split = NoLineEnd | Split(line: string, rest: string)

  /** Cuts `s` at its first newline. */
  function SplitLine(s: string): (r: Split)
    ensures r.Split? ==> s == r.line + "\n" + r.rest && NoNewline(r.line)
    ensures r.NoLineEnd? ==> NoNewline(s)
  {
    if s == [] then NoLineEnd
    else if s[0] == '\n' then Split([], s[1..])
    else match SplitLine(s[1..])
      case NoLineEnd => NoLineEnd
      case Split(l, rest) => Split([s[0]] + l, rest)
  }

  /** A newline-free line followed by a newline is cut exactly there. */
  lemma {:induction false} SplitLineAt(a: string, b: string)
    requires NoNewline(a)
    ensures SplitLine(a + "\n" + b) == Split(a, b)
  {
    var s := a + "\n" + b;
    if a == [] {
      assert s[0] == '\n' && s[1..] == b;
    } else {
      assert s[0] == a[0] && s[1..] == a[1..] + "\n" + b;
      SplitLineAt(a[1..], b);
      assert [a[0]] + a[1..] == a;
    }
  }

  // ---------------------------------------------------------------------------
  // sprintf field padding
  // ---------------------------------------------------------------------------

  function Max(a: nat, b: nat): nat { if a >= b then a else b }

  function Spaces(n: nat): (r: string)
    ensures |r| == n
    ensures forall i :: 0 <= i < n ==> r[i] == ' '
  {
    if n == 0 then [] else [' '] + Spaces(n - 1)
  }

  /** `%-Ns`: left-justified in a field of at least `width`, never truncated. */
  function PadRight(s: string, width: nat): (r: string)
    ensures |r| == Max(|s|, width)
    ensures r[..|s|] == s
    ensures forall i :: |s| <= i < |r| ==> r[i] == ' '
  {
    if |s| >= width then s else s + Spaces(width - |s|)
  }

  /** `%Ns`/`%Ni`: right-justified in a field of at least `width`, never truncated. */
  function PadLeft(s: string, width: nat): (r: string)
    ensures |r| == Max(|s|, width)
    ensures r[|r| - |s|..] == s
    ensures forall i :: 0 <= i < |r| - |s| ==> r[i] == ' '
  {
    if |s| >= width then s else Spaces(width - |s|) + s
  }

  // ---------------------------------------------------------------------------
  // Decimal numerals
  // ---------------------------------------------------------------------------

  predicate IsDigit(c: char) { '0' <= c <= '9' }

  predicate AllDigits(s: string) {
    forall i :: 0 <= i < |s| ==> IsDigit(s[i])
  }

  function DigitChar(d: nat): (c: char)
    requires d < 10
    ensures IsDigit(c)
  {
    (48 + d) as char
  }

  function DigitValue(c: char): nat
    requires IsDigit(c)
  {
    (c as int - 48) as nat
  }

  /** Decimal rendering of a non-negative integer, without leading zeros. */
  function NatToDecimal(n: nat): (r: string)
    ensures |r| >= 1 && AllDigits(r)
    ensures r[0] == '0' ==> n == 0
  {
    if n < 10 then [DigitChar(n)]
    else NatToDecimal(n / 10) + [DigitChar(n % 10)]
  }

  /** The number a non-empty string of digits denotes. */
  function DecimalValue(s: string): nat
    requires AllDigits(s)
  {
    if s == [] then 0
    else DecimalValue(s[..|s| - 1]) * 10 + DigitValue(s[|s| - 1])
  }

  /** Reading the rendered numeral back yields the number. */
  lemma {:induction false} DecimalRoundTrip(n: nat)
    ensures DecimalValue(NatToDecimal(n)) == n
  {
    var r := NatToDecimal(n);
    if n >= 10 {
      DecimalRoundTrip(n / 10);
      assert r[..|r| - 1] == NatToDecimal(n / 10);
    }
  }
}
