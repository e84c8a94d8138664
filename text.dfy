/**
 * The string primitives the ingestion and capture code relies on: Python's
 * `str.strip`, `str.lower`, `str.split`, `str.join`, the `in`/`startswith`/
 * `endswith` tests and `str(int)`, and JavaScript's `trim` and `join`.
 */
module Text {

  /** ASCII whitespace: space, tab, line feed, vertical tab, form feed, carriage return. */
  predicate IsSpace(c: char) {
    c == ' ' || c == '\t' || c == '\n' || c == '\U{0B}' || c == '\U{0C}' || c == '\r'
  }

  /** True when every character is whitespace (Python: `not s.strip()`). */
  predicate IsBlank(s: string) {
    forall i :: 0 <= i < |s| ==> IsSpace(s[i])
  }

  /** True when `s` neither starts nor ends with whitespace. */
  predicate IsStripped(s: string) {
    s == [] || (!IsSpace(s[0]) && !IsSpace(s[|s| - 1]))
  }

  /** Drops leading whitespace. */
  function TrimStart(s: string): string
    decreases |s|
  {
    if s != [] && IsSpace(s[0]) then TrimStart(s[1..]) else s
  }

  lemma {:induction false} TrimStartSpec(s: string)
    ensures |TrimStart(s)| <= |s| && TrimStart(s) == s[|s| - |TrimStart(s)|..]
    ensures IsBlank(s[..|s| - |TrimStart(s)|])
    ensures TrimStart(s) == [] || !IsSpace(TrimStart(s)[0])
    decreases |s|
  {
    if s != [] && IsSpace(s[0]) {
      TrimStartSpec(s[1..]);
      var k := |s| - |TrimStart(s)|;
      forall i | 0 <= i < k ensures IsSpace(s[..k][i]) {
        if i > 0 {
          assert s[..k][i] == s[1..][..k - 1][i - 1];
        }
      }
    }
  }

  /** Drops trailing whitespace. */
  function TrimEnd(s: string): string
    decreases |s|
  {
    if s != [] && IsSpace(s[|s| - 1]) then TrimEnd(s[..|s| - 1]) else s
  }

  lemma {:induction false} TrimEndSpec(s: string)
    ensures |TrimEnd(s)| <= |s| && TrimEnd(s) == s[..|TrimEnd(s)|]
    ensures IsBlank(s[|TrimEnd(s)|..])
    ensures TrimEnd(s) == [] || !IsSpace(TrimEnd(s)[|TrimEnd(s)| - 1])
    decreases |s|
  {
    if s != [] && IsSpace(s[|s| - 1]) {
      TrimEndSpec(s[..|s| - 1]);
      var k := |TrimEnd(s)|;
      forall i | 0 <= i < |s| - k ensures IsSpace(s[k..][i]) {
        if k + i < |s| - 1 {
          assert s[k..][i] == s[..|s| - 1][k..][i];
        }
      }
    }
  }

  /** Python's `str.strip()` and JavaScript's `String.prototype.trim()` on ASCII whitespace. */
  function Strip(s: string): string {
    TrimEnd(TrimStart(s))
  }

  lemma TrimEndOfStart(s: string)
    ensures TrimStart(s) == [] ==> Strip(s) == []
    ensures TrimStart(s) != [] ==> Strip(s) != [] && Strip(s)[0] == TrimStart(s)[0]
  {
    TrimStartSpec(s);
    TrimEndSpec(TrimStart(s));
  }

  /** The stripped text is a slice of the input, without surrounding whitespace, and empty exactly for blank input. */
  lemma StripSpec(s: string)
    ensures |Strip(s)| <= |s|
    ensures IsStripped(Strip(s))
    ensures Strip(s) == [] <==> IsBlank(s)
  {
    var t := TrimStart(s);
    TrimEndOfStart(s);
    TrimStartSpec(s);
    TrimEndSpec(t);
    var a := |s| - |t|;
    if Strip(s) == [] {
      assert IsBlank(s) by {
        forall i | 0 <= i < |s| ensures IsSpace(s[i]) {
          if i < a {
            assert s[..a][i] == s[i];
          }
        }
      }
    } else {
      assert s[a] == Strip(s)[0];
    }
  }

  /** Stripping twice changes nothing more. */
  lemma StripIdempotent(s: string)
    ensures Strip(Strip(s)) == Strip(s)
  {
    StripSpec(s);
    StripOfStripped(Strip(s));
  }

  lemma StripOfStripped(s: string)
    requires IsStripped(s)
    ensures Strip(s) == s
  {
  }

  /** Whitespace appended to a text disappears under `strip`. */
  lemma {:induction false} StripAppendBlank(x: string, w: string)
    requires IsBlank(w)
    ensures Strip(x + w) == Strip(x)
  {
    TrimStartAppend(x, w);
    if TrimStart(x) == [] {
      TrimEndAppendBlank([], TrimStart(x + w));
      assert [] + TrimStart(x + w) == TrimStart(x + w);
    } else {
      TrimEndAppendBlank(TrimStart(x), w);
    }
  }

  lemma {:induction false} TrimStartAppend(x: string, w: string)
    requires IsBlank(w)
    ensures TrimStart(x) == [] ==> IsBlank(TrimStart(x + w))
    ensures TrimStart(x) != [] ==> TrimStart(x + w) == TrimStart(x) + w
  {
    if x == [] {
      assert x + w == w;
      TrimStartSpec(w);
    } else if IsSpace(x[0]) {
      assert (x + w)[1..] == x[1..] + w;
      TrimStartAppend(x[1..], w);
    } else {
      assert (x + w)[0] == x[0];
    }
  }

  lemma {:induction false} TrimEndAppendBlank(y: string, w: string)
    requires IsBlank(w)
    ensures TrimEnd(y + w) == TrimEnd(y)
    decreases |w|
  {
    if w == [] {
      assert y + w == y;
    } else {
      assert (y + w)[..|y + w| - 1] == y + w[..|w| - 1];
      assert IsSpace(w[|w| - 1]);
      TrimEndAppendBlank(y, w[..|w| - 1]);
    }
  }

  /** ASCII lowering: Python's `str.lower()` restricted to the letters A-Z. */
  function LowerChar(c: char): char {
    if 'A' <= c <= 'Z' then (c as int - 'A' as int + 'a' as int) as char else c
  }

  function Lower(s: string): (r: string)
    ensures |r| == |s|
    ensures forall i :: 0 <= i < |s| ==> r[i] == LowerChar(s[i])
  {
    seq(|s|, i requires 0 <= i < |s| => LowerChar(s[i]))
  }

  /** Python's `sub in s`. */
  predicate Contains(s: string, sub: string)
    decreases |s|
  {
    StartsWith(s, sub) || (s != [] && Contains(s[1..], sub))
  }

  /** Python's `s.startswith(p)`. */
  predicate StartsWith(s: string, p: string) {
    |p| <= |s| && s[..|p|] == p
  }

  /** Python's `s.endswith(p)`. */
  predicate EndsWith(s: string, p: string) {
    |p| <= |s| && s[|s| - |p|..] == p
  }

  /** Python's `sep.join(parts)` and JavaScript's `parts.join(sep)`. */
  function Join(parts: seq<string>, sep: string): string
    decreases |parts|
  {
    if parts == [] then ""
    else if |parts| == 1 then parts[0]
    else parts[0] + sep + Join(parts[1..], sep)
  }

  /** Joining one more part at the end. */
  lemma {:induction false} JoinSnoc(parts: seq<string>, x: string, sep: string)
    requires parts != []
    ensures Join(parts + [x], sep) == Join(parts, sep) + sep + x
    decreases |parts|
  {
    if |parts| == 1 {
      assert parts + [x] == [parts[0], x];
    } else {
      assert (parts + [x])[1..] == parts[1..] + [x];
      JoinSnoc(parts[1..], x, sep);
    }
  }

  /** A concatenation is blank exactly when both halves are. */
  lemma BlankAppend(a: string, b: string)
    ensures IsBlank(a + b) <==> IsBlank(a) && IsBlank(b)
  {
    if IsBlank(a) && IsBlank(b) {
      forall i | 0 <= i < |a + b| ensures IsSpace((a + b)[i]) {
        if i >= |a| {
          assert (a + b)[i] == b[i - |a|];
        }
      }
    }
    if IsBlank(a + b) {
      forall i | 0 <= i < |a| ensures IsSpace(a[i]) {
        assert (a + b)[i] == a[i];
      }
      forall i | 0 <= i < |b| ensures IsSpace(b[i]) {
        assert (a + b)[|a| + i] == b[i];
      }
    }
  }

  /** With a blank separator, a join is blank exactly when every part is. */
  lemma {:induction false} JoinBlank(parts: seq<string>, sep: string)
    requires IsBlank(sep)
    ensures IsBlank(Join(parts, sep)) <==> forall i :: 0 <= i < |parts| ==> IsBlank(parts[i])
    decreases |parts|
  {
    if |parts| > 1 {
      JoinBlank(parts[1..], sep);
      BlankAppend(parts[0], sep + Join(parts[1..], sep));
      BlankAppend(sep, Join(parts[1..], sep));
      assert Join(parts, sep) == parts[0] + (sep + Join(parts[1..], sep));
      if forall i :: 1 <= i < |parts| ==> IsBlank(parts[i]) {
        assert forall i :: 0 <= i < |parts[1..]| ==> IsBlank(parts[1..][i]);
      } else {
        var i :| 1 <= i < |parts| && !IsBlank(parts[i]);
        assert parts[1..][i - 1] == parts[i];
      }
    }
  }

  /** A join starts with its first part and ends with its last. */
  lemma {:induction false} JoinEnds(parts: seq<string>, sep: string)
    requires parts != []
    ensures StartsWith(Join(parts, sep), parts[0])
    ensures EndsWith(Join(parts, sep), parts[|parts| - 1])
    decreases |parts|
  {
    if |parts| > 1 {
      JoinEnds(parts[1..], sep);
      var j := Join(parts, sep);
      var rest := Join(parts[1..], sep);
      assert j == parts[0] + (sep + rest);
      assert j[..|parts[0]|] == parts[0];
      var last := parts[|parts| - 1];
      assert parts[1..][|parts[1..]| - 1] == last;
      assert j[|j| - |last|..] == rest[|rest| - |last|..];
    }
  }

  /** Python's `s.split("\n\n")`: the pieces between non-overlapping occurrences, scanning left to right. */
  function SplitParagraphs(s: string): (r: seq<string>)
    ensures |r| >= 1
    decreases |s|
  {
    if |s| < 2 then [s]
    else if s[0] == '\n' && s[1] == '\n' then [""] + SplitParagraphs(s[2..])
    else
      var rest := SplitParagraphs(s[1..]);
      [[s[0]] + rest[0]] + rest[1..]
  }

  /** `split` loses nothing: joining the paragraphs back with the separator gives the text. */
  lemma {:induction false} SplitJoinRoundTrip(s: string)
    ensures Join(SplitParagraphs(s), "\n\n") == s
    decreases |s|
  {
    if |s| < 2 {
    } else if s[0] == '\n' && s[1] == '\n' {
      var rest := SplitParagraphs(s[2..]);
      assert SplitParagraphs(s) == [""] + rest;
      SplitJoinRoundTrip(s[2..]);
      JoinCons("", rest, "\n\n");
      assert s == "\n\n" + s[2..];
    } else {
      var rest := SplitParagraphs(s[1..]);
      assert SplitParagraphs(s) == [[s[0]] + rest[0]] + rest[1..];
      SplitJoinRoundTrip(s[1..]);
      JoinExtendFirst(s[0], rest, "\n\n");
      assert s == [s[0]] + s[1..];
    }
  }

  /** Joining a part in front of non-empty parts puts one separator between them. */
  lemma JoinCons(p: string, rest: seq<string>, sep: string)
    requires rest != []
    ensures Join([p] + rest, sep) == p + sep + Join(rest, sep)
  {
    assert ([p] + rest)[1..] == rest;
  }

  /** Prefixing the first part with a character prefixes the joined text with it. */
  lemma JoinExtendFirst(c: char, parts: seq<string>, sep: string)
    requires parts != []
    ensures Join([[c] + parts[0]] + parts[1..], sep) == [c] + Join(parts, sep)
  {
    var r := [[c] + parts[0]] + parts[1..];
    if |parts| > 1 {
      assert r[1..] == parts[1..];
    }
  }

  function DigitChar(d: nat): char
    requires d < 10
  {
    "0123456789"[d]
  }

  /** Decimal digits of a natural number: Python's `str(n)` for `n >= 0`. */
  function NatToString(n: nat): (r: string)
    ensures |r| >= 1
    decreases n
  {
    if n < 10 then [DigitChar(n)] else NatToString(n / 10) + [DigitChar(n % 10)]
  }

  /** Every character of a printed natural number is a decimal digit. */
  lemma {:induction false} NatToStringDigits(n: nat)
    ensures forall i :: 0 <= i < |NatToString(n)| ==> '0' <= NatToString(n)[i] <= '9'
    decreases n
  {
    if n >= 10 {
      NatToStringDigits(n / 10);
      var r := NatToString(n);
      assert r == NatToString(n / 10) + [DigitChar(n % 10)];
      forall i | 0 <= i < |r| ensures '0' <= r[i] <= '9' {
        if i < |r| - 1 {
          assert r[i] == NatToString(n / 10)[i];
        }
      }
    }
  }

  /** Python's `str(n)` for any integer. */
  function IntToString(n: int): string {
    if n < 0 then "-" + NatToString(-n) else NatToString(n)
  }

  lemma {:induction false} NatToStringLength(n: nat)
    ensures n >= 10 <==> |NatToString(n)| >= 2
    decreases n
  {
  }

  /** Different numbers print differently. */
  lemma {:induction false} NatToStringInjective(n: nat, m: nat)
    requires NatToString(n) == NatToString(m)
    ensures n == m
    decreases n
  {
    NatToStringLength(n);
    NatToStringLength(m);
    if n >= 10 && m >= 10 {
      var a, b := NatToString(n), NatToString(m);
      assert a[|a| - 1] == b[|b| - 1];
      assert "0123456789"[n % 10] == "0123456789"[m % 10];
      assert n % 10 == m % 10;
      assert a[..|a| - 1] == NatToString(n / 10);
      assert b[..|b| - 1] == NatToString(m / 10);
      NatToStringInjective(n / 10, m / 10);
    } else {
      assert "0123456789"[n % 10] == "0123456789"[m % 10];
    }
  }

  lemma IntToStringInjective(n: int, m: int)
    requires IntToString(n) == IntToString(m)
    ensures n == m
  {
    if n < 0 && m < 0 {
      NegativeInjective(n, m);
    } else if n >= 0 && m >= 0 {
      assert NatToString(n) == IntToString(n);
      assert NatToString(m) == IntToString(m);
      NatToStringInjective(n, m);
    } else {
      IntToStringSign(n);
      IntToStringSign(m);
      assert false;
    }
  }

  lemma NegativeInjective(n: int, m: int)
    requires n < 0 && m < 0 && IntToString(n) == IntToString(m)
    ensures n == m
  {
    var a, b := NatToString(-n), NatToString(-m);
    DropSign(a, b);
    NatToStringInjective(-n, -m);
  }

  lemma DropSign(a: string, b: string)
    requires "-" + a == "-" + b
    ensures a == b
  {
    assert a == ("-" + a)[1..] && b == ("-" + b)[1..];
  }

  /** A minus sign leads exactly the negative numbers. */
  lemma IntToStringSign(n: int)
    ensures IntToString(n) != [] && (IntToString(n)[0] == '-' <==> n < 0)
  {
    if n >= 0 {
      NatToStringDigits(n);
      assert IntToString(n)[0] == NatToString(n)[0];
    }
  }
}
