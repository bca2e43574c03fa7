/** Value wrappers and the small string operations of Python's `str` that the
    retrieval code relies on, stated over `seq<char>`. */
module Common {

  datatype Option<+T> = None | Some(value: T)

  /** Python's `str.isspace()`: the characters `str.strip()`, `str.split()` and the
      regular-expression class `\s` treat as whitespace. */
  predicate IsPySpace(c: char)
  {
    c == ' ' || ('\t' <= c <= '\r') || ('\U{1C}' <= c <= '\U{1F}')
    || c == '\U{85}' || c == '\U{A0}' || c == '\U{1680}' || ('\U{2000}' <= c <= '\U{200A}')
    || c == '\U{2028}' || c == '\U{2029}' || c == '\U{202F}' || c == '\U{205F}' || c == '\U{3000}'
  }

  predicate IsAsciiLetter(c: char)
  {
    'a' <= c <= 'z' || 'A' <= c <= 'Z'
  }

  predicate IsDigit(c: char)
  {
    '0' <= c <= '9'
  }

  predicate StartsWith(s: string, prefix: string)
  {
    |prefix| <= |s| && s[..|prefix|] == prefix
  }

  /** `str.lower()` restricted to the ASCII letters. */
  function LowerAscii(s: string): (r: string)
    ensures |r| == |s|
    ensures forall i :: 0 <= i < |s| ==> r[i] == (if 'A' <= s[i] <= 'Z' then (s[i] - 'A' + 'a') as char else s[i])
  {
    if s == [] then []
    else [if 'A' <= s[0] <= 'Z' then (s[0] - 'A' + 'a') as char else s[0]] + LowerAscii(s[1..])
  }

  /** No whitespace at either end, in Python's sense. */
  predicate Trimmed(s: string)
  {
    s == [] || (!IsPySpace(s[0]) && !IsPySpace(s[|s| - 1]))
  }

  predicate AllSpace(s: string)
  {
    forall i :: 0 <= i < |s| ==> IsPySpace(s[i])
  }

  /** How many whitespace characters `s` starts with. */
  function SpaceBefore(s: string): (k: nat)
    ensures k <= |s|
    ensures forall i :: 0 <= i < k ==> IsPySpace(s[i])
    ensures k < |s| ==> !IsPySpace(s[k])
  {
    if s == [] || !IsPySpace(s[0]) then 0 else 1 + SpaceBefore(s[1..])
  }

  /** Where the whitespace that `s` ends with begins. */
  function SpaceAfter(s: string): (k: nat)
    ensures k <= |s|
    ensures forall i :: k <= i < |s| ==> IsPySpace(s[i])
    ensures 0 < k ==> !IsPySpace(s[k - 1])
  {
    if s == [] || !IsPySpace(s[|s| - 1]) then |s| else SpaceAfter(s[..|s| - 1])
  }

  /** Python's `str.strip()`: `s` is whitespace, then `r`, then whitespace, and `r`
      has no whitespace at either end. */
  function Strip(s: string): (r: string)
    ensures Trimmed(r)
    ensures exists i, j :: 0 <= i <= j <= |s| && r == s[i..j] && AllSpace(s[..i]) && AllSpace(s[j..])
  {
    var i := SpaceBefore(s);
    var j := SpaceAfter(s);
    if i == |s| then
      assert AllSpace(s[..i]) by {
        assert s[..i] == s;
      }
      assert AllSpace(s[i..]);
      []
    else
      assert AllSpace(s[..i]) by {
        forall p | 0 <= p < i ensures IsPySpace(s[..i][p]) {
          assert s[..i][p] == s[p];
        }
      }
      assert AllSpace(s[j..]) by {
        forall p | 0 <= p < |s| - j ensures IsPySpace(s[j..][p]) {
          assert s[j..][p] == s[j + p];
        }
      }
      assert s[i..j][0] == s[i] && s[i..j][j - i - 1] == s[j - 1];
      s[i..j]
  }

  /** `strip()` leaves a trimmed text as it is. */
  lemma StripOfTrimmed(s: string)
    requires Trimmed(s)
    ensures Strip(s) == s
  {
    if s != [] {
      assert SpaceBefore(s) == 0;
      assert SpaceAfter(s) == |s|;
      assert s[0..|s|] == s;
    }
  }

  /** Python's `sep.join(parts)`. */
  function Join(parts: seq<string>, sep: string): string
  {
    if parts == [] then ""
    else if |parts| == 1 then parts[0]
    else parts[0] + sep + Join(parts[1..], sep)
  }

  lemma JoinCons(parts: seq<string>, sep: string)
    requires |parts| >= 2
    ensures Join(parts, sep) == parts[0] + sep + Join(parts[1..], sep)
  {
  }

  /** Appending a part appends the separator and the part. */
  lemma {:induction false} JoinSnoc(parts: seq<string>, x: string, sep: string)
    requires parts != []
    ensures Join(parts + [x], sep) == Join(parts, sep) + sep + x
  {
    if |parts| == 1 {
      assert (parts + [x])[1..] == [x];
    } else {
      assert (parts + [x])[1..] == parts[1..] + [x];
      JoinSnoc(parts[1..], x, sep);
    }
  }

  lemma JoinSix(parts: seq<string>, sep: string)
    requires |parts| == 6
    ensures Join(parts, sep)
      == parts[0] + sep + parts[1] + sep + parts[2] + sep + parts[3] + sep + parts[4] + sep + parts[5]
  {
    JoinCons(parts, sep);
    JoinCons(parts[1..], sep);
    JoinCons(parts[2..], sep);
    JoinCons(parts[3..], sep);
    JoinCons(parts[4..], sep);
    assert parts[1..][1..] == parts[2..] && parts[2..][1..] == parts[3..];
    assert parts[3..][1..] == parts[4..] && parts[4..][1..] == parts[5..];
  }

  function DigitChar(d: nat): (c: char)
    requires d < 10
    ensures IsDigit(c)
  {
    ('0' as int + d) as char
  }

  /** Decimal rendering of a natural number, as Python's `str(n)` and `f"{n}"`. */
  function NatToString(n: nat): (r: string)
    ensures |r| > 0
    ensures forall i :: 0 <= i < |r| ==> IsDigit(r[i])
    ensures |r| > 1 ==> r[0] != '0'
  {
    if n < 10 then [DigitChar(n)] else NatToString(n / 10) + [DigitChar(n % 10)]
  }

  /** The value of a string of decimal digits. */
  function DigitsValue(s: string): nat
    requires forall i :: 0 <= i < |s| ==> IsDigit(s[i])
  {
    if s == [] then 0
    else
      assert IsDigit(s[|s| - 1]);
      DigitsValue(s[..|s| - 1]) * 10 + (s[|s| - 1] as int - '0' as int)
  }

  lemma {:induction false} NatToStringValue(n: nat)
    ensures DigitsValue(NatToString(n)) == n
  {
    var r := NatToString(n);
    if n >= 10 {
      NatToStringValue(n / 10);
      assert r[..|r| - 1] == NatToString(n / 10);
    }
  }
}
