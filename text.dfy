/** The handful of Python string operations the core relies on, written out on `seq<char>`. */
module Text {
  import opened Options

  /** `s.replace(c, '')`: the characters of `s` other than `c`, in order. */
  function RemoveChar(s: string, c: char): (r: string)
    ensures c !in r
    ensures |r| <= |s|
    ensures forall x :: x in r <==> x in s && x != c
  {
    if s == [] then []
    else (if s[0] == c then "" else [s[0]]) + RemoveChar(s[1..], c)
  }

  /**
   * `replace` removes character by character and keeps the order: the result for a
   * concatenation is the concatenation of the results, and a single character is dropped
   * exactly when it is `c`.
   */
  lemma {:induction false} RemoveCharAppend(s: string, t: string, c: char)
    ensures RemoveChar(s + t, c) == RemoveChar(s, c) + RemoveChar(t, c)
    ensures |s| == 1 ==> RemoveChar(s, c) == if s[0] == c then [] else s
  {
    if s == [] {
      assert s + t == t;
    } else {
      var st := s + t;
      assert st[0] == s[0] && st[1..] == s[1..] + t;
      RemoveCharAppend(s[1..], t, c);
      assert RemoveChar(st, c) == (if s[0] == c then "" else [s[0]]) + RemoveChar(s[1..] + t, c);
    }
  }

  /** Every character other than `c` occurs in the result as often as in `s`. */
  lemma {:induction false} RemoveCharCount(s: string, c: char, x: char)
    ensures multiset(RemoveChar(s, c))[x] == if x == c then 0 else multiset(s)[x]
  {
    if s != [] {
      RemoveCharCount(s[1..], c, x);
      assert s == [s[0]] + s[1..];
      assert multiset(s) == multiset([s[0]]) + multiset(s[1..]);
    }
  }

  /** Removing a character that does not occur changes nothing. */
  lemma {:induction false} RemoveAbsentChar(s: string, c: char)
    requires c !in s
    ensures RemoveChar(s, c) == s
  {
    if s != [] {
      RemoveAbsentChar(s[1..], c);
    }
  }

  /** Lower-casing of one character (ASCII letters only). */
  function LowerChar(c: char): (r: char)
    ensures 'A' <= c <= 'Z' ==> r as int == c as int + 32
    ensures !('A' <= c <= 'Z') ==> r == c
  {
    if 'A' <= c <= 'Z' then (c as int + 32) as char else c
  }

  /** `s.lower()`, restricted to ASCII letters. */
  function ToLower(s: string): (r: string)
    ensures |r| == |s|
    ensures forall i :: 0 <= i < |s| ==> r[i] == LowerChar(s[i])
  {
    if s == [] then [] else [LowerChar(s[0])] + ToLower(s[1..])
  }

  /** `a.lower() == b.lower()`. */
  predicate EqualsIgnoreCase(a: string, b: string) {
    ToLower(a) == ToLower(b)
  }

  /** Lower-casing twice is lower-casing once. */
  lemma ToLowerIdempotent(s: string)
    ensures ToLower(ToLower(s)) == ToLower(s)
  {
    var t := ToLower(s);
    assert forall i :: 0 <= i < |t| ==> ToLower(t)[i] == t[i];
  }

  /** `s.replace(pat, rep)`: every non-overlapping occurrence of `pat`, scanned from the left, is replaced. */
  function ReplaceAll(s: string, pat: string, rep: string): string
    requires pat != []
    decreases |s|
  {
    if |s| < |pat| then s
    else if s[..|pat|] == pat then rep + ReplaceAll(s[|pat|..], pat, rep)
    else [s[0]] + ReplaceAll(s[1..], pat, rep)
  }

  /** A string that does not contain the first character of `pat` has no occurrence to replace. */
  lemma {:induction false} ReplaceAllAbsent(s: string, pat: string, rep: string)
    requires pat != [] && pat[0] !in s
    ensures ReplaceAll(s, pat, rep) == s
  {
    if |s| >= |pat| {
      assert s[..|pat|][0] == s[0];
      ReplaceAllAbsent(s[1..], pat, rep);
    }
  }

  /** An occurrence of `pat` starts at position `i` of `s`. */
  predicate StartsAt(s: string, pat: string, i: nat) {
    i + |pat| <= |s| && s[i..i + |pat|] == pat
  }

  /** No occurrence of `pat` in `base + pat` starts inside `base`: the trailing `pat` is the first one. */
  predicate MatchesOnlyAtEnd(base: string, pat: string) {
    forall i: nat | i < |base| :: !StartsAt(base + pat, pat, i)
  }

  /** A trailing `pat` after a prefix in which no occurrence starts becomes `rep`. */
  lemma {:induction false} ReplaceAllSuffix(base: string, pat: string, rep: string)
    requires pat != [] && MatchesOnlyAtEnd(base, pat)
    ensures ReplaceAll(base + pat, pat, rep) == base + rep
  {
    var s := base + pat;
    if base == [] {
      assert s[..|pat|] == pat && s[|pat|..] == [];
      assert ReplaceAll(s, pat, rep) == rep + ReplaceAll([], pat, rep);
    } else {
      assert !StartsAt(s, pat, 0);
      assert s[0..0 + |pat|] == s[..|pat|];
      assert s[1..] == base[1..] + pat;
      assert MatchesOnlyAtEnd(base[1..], pat) by {
        forall i: nat | i < |base[1..]|
          ensures !StartsAt(base[1..] + pat, pat, i)
        {
          assert !StartsAt(s, pat, i + 1);
          assert s[1..][i..i + |pat|] == s[i + 1..i + 1 + |pat|];
        }
      }
      calc {
        ReplaceAll(s, pat, rep);
        [s[0]] + ReplaceAll(s[1..], pat, rep);
        { ReplaceAllSuffix(base[1..], pat, rep); }
        [base[0]] + (base[1..] + rep);
        base + rep;
      }
    }
  }

  /** A decimal digit. */
  function DigitChar(d: int): (c: char)
    requires 0 <= d < 10
    ensures '0' <= c <= '9'
  {
    ('0' as int + d) as char
  }

  predicate AllDigits(s: string) {
    forall i :: 0 <= i < |s| ==> '0' <= s[i] <= '9'
  }

  /** `str(n)` for a natural number: its decimal digits, most significant first, without leading zeros. */
  function NatToString(n: nat): (r: string)
    ensures |r| >= 1 && AllDigits(r)
    ensures |r| > 1 ==> r[0] != '0'
    decreases n
  {
    if n < 10 then [DigitChar(n)] else NatToString(n / 10) + [DigitChar(n % 10)]
  }

  /** `str(n)` for any integer: a minus sign before the digits of a negative number. */
  function IntToString(n: int): (r: string)
    ensures |r| >= 1
    ensures r[0] == '-' <==> n < 0
  {
    if n < 0 then "-" + NatToString(-n) else NatToString(n)
  }

  /** The number a string of decimal digits denotes. */
  function DigitsValue(s: string): int
    decreases |s|
  {
    if s == [] then 0 else 10 * DigitsValue(s[..|s| - 1]) + (s[|s| - 1] as int - '0' as int)
  }

  /** Reads back what IntToString writes: an optional minus sign and at least one digit. */
  function ParseInt(s: string): Option<int> {
    if |s| >= 2 && s[0] == '-' && AllDigits(s[1..]) then Some(-DigitsValue(s[1..]))
    else if |s| >= 1 && AllDigits(s) then Some(DigitsValue(s))
    else None
  }

  lemma {:induction false} NatToStringValue(n: nat)
    ensures DigitsValue(NatToString(n)) == n
  {
    if n >= 10 {
      NatToStringValue(n / 10);
      var s := NatToString(n);
      assert s[..|s| - 1] == NatToString(n / 10);
    }
  }

  /** IntToString and ParseInt are inverse: the decimal text of an integer determines it. */
  lemma IntToStringRoundTrip(n: int)
    ensures ParseInt(IntToString(n)) == Some(n)
  {
    var s := IntToString(n);
    if n < 0 {
      var digits := NatToString(-n);
      NatToStringValue(-n);
      assert s == "-" + digits;
      assert s[1..] == digits;
    } else {
      NatToStringValue(n);
      assert s == NatToString(n);
      assert s[0] != '-';
    }
  }

  /** Different integers are printed differently. */
  lemma IntToStringInjective(a: int, b: int)
    ensures IntToString(a) == IntToString(b) <==> a == b
  {
    IntToStringRoundTrip(a);
    IntToStringRoundTrip(b);
  }

  /** A byte, as `random.randint(0x00, 0xff)` yields one. */
  type Byte = x: int | 0 <= x < 256

  predicate IsLowerHex(c: char) {
    '0' <= c <= '9' || 'a' <= c <= 'f'
  }

  function HexDigit(d: int): (c: char)
    requires 0 <= d < 16
    ensures IsLowerHex(c)
  {
    if d < 10 then ('0' as int + d) as char else ('a' as int + d - 10) as char
  }

  function HexValue(c: char): int {
    if '0' <= c <= '9' then c as int - '0' as int
    else if 'a' <= c <= 'f' then c as int - 'a' as int + 10
    else 0
  }

  /** `f'{b:02x}'`: two lower-case hexadecimal digits. */
  function Hex2(b: Byte): (r: string)
    ensures |r| == 2 && IsLowerHex(r[0]) && IsLowerHex(r[1])
  {
    [HexDigit(b / 16), HexDigit(b % 16)]
  }

  function ParseHex2(s: string): int
    requires |s| == 2
  {
    16 * HexValue(s[0]) + HexValue(s[1])
  }

  /** `':'.join(f'{b:02x}' for b in bs)`: two hex digits per byte, a colon between neighbours. */
  function JoinHex(bs: seq<Byte>): (r: string)
    requires |bs| >= 1
    ensures |r| == 3 * |bs| - 1
    ensures forall i :: 0 <= i < |r| ==> (r[i] == ':' <==> i % 3 == 2)
    ensures forall i :: 0 <= i < |r| ==> r[i] == ':' || IsLowerHex(r[i])
  {
    if |bs| == 1 then Hex2(bs[0]) else Hex2(bs[0]) + ":" + JoinHex(bs[1..])
  }

  /** Reads a colon-separated list of two-digit hex bytes back. */
  function ParseHexBytes(s: string): seq<int>
    decreases |s|
  {
    if |s| < 3 then (if |s| == 2 then [ParseHex2(s)] else [])
    else [ParseHex2(s[..2])] + ParseHexBytes(s[3..])
  }

  /** JoinHex loses nothing: the bytes can be read back from the text. */
  lemma {:induction false} JoinHexRoundTrip(bs: seq<Byte>)
    requires |bs| >= 1
    ensures ParseHexBytes(JoinHex(bs)) == bs
  {
    var r := JoinHex(bs);
    if |bs| == 1 {
      assert ParseHex2(Hex2(bs[0])) == bs[0];
    } else {
      JoinHexRoundTrip(bs[1..]);
      assert r[..2] == Hex2(bs[0]);
      assert r[3..] == JoinHex(bs[1..]);
      assert ParseHex2(Hex2(bs[0])) == bs[0];
      assert bs == [bs[0]] + bs[1..];
    }
  }
}
