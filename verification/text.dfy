/** String helpers shared by the checker model: the Python string operations the
    script relies on (`str.replace` with a one-character pattern, the `in` substring
    test, `str()` of an integer) and the small scanners used to read produced text back. */
module Text {

  datatype Option<T> = None | Some(value: T)

  predicate IsDigit(c: char) {
    '0' <= c <= '9'
  }

  predicate AllDigits(s: string) {
    forall i :: 0 <= i < |s| ==> IsDigit(s[i])
  }

  /* ---------------------------------------------------------------------------
     Replacement
     --------------------------------------------------------------------------- */

  /** Python's `s.replace(target, replacement)` for a one-character `target`:
      every occurrence, scanned left to right, is replaced. */
  function ReplaceChar(s: string, target: char, replacement: string): string
    decreases |s|
  {
    if s == [] then []
    else (if s[0] == target then replacement else [s[0]]) + ReplaceChar(s[1..], target, replacement)
  }

  /** Replacing a single character works piece by piece. */
  lemma {:induction false} ReplaceCharAppend(a: string, b: string, target: char, replacement: string)
    ensures ReplaceChar(a + b, target, replacement)
            == ReplaceChar(a, target, replacement) + ReplaceChar(b, target, replacement)
    decreases |a|
  {
    if a == [] {
      assert a + b == b;
    } else {
      assert (a + b)[0] == a[0];
      assert (a + b)[1..] == a[1..] + b;
      ReplaceCharAppend(a[1..], b, target, replacement);
    }
  }

  /** A string without the target is returned unchanged. */
  lemma {:induction false} ReplaceCharAbsent(s: string, target: char, replacement: string)
    requires forall i :: 0 <= i < |s| ==> s[i] != target
    ensures ReplaceChar(s, target, replacement) == s
    decreases |s|
  {
    if s != [] {
      ReplaceCharAbsent(s[1..], target, replacement);
      assert [s[0]] + s[1..] == s;
    }
  }

  /* ---------------------------------------------------------------------------
     Substring search
     --------------------------------------------------------------------------- */

  /** `sub` occurs in `s` starting at index `i`. */
  predicate OccursAt(s: string, sub: string, i: int) {
    0 <= i && i + |sub| <= |s| && s[i..i + |sub|] == sub
  }

  /** Python's `sub in s`. */
  function Contains(s: string, sub: string): bool
    decreases |s|
  {
    if |s| < |sub| then false
    else if s[..|sub|] == sub then true
    else Contains(s[1..], sub)
  }

  /** `Contains` holds exactly when `sub` occurs somewhere in `s`. */
  lemma {:induction false} ContainsIffOccurs(s: string, sub: string)
    ensures Contains(s, sub) <==> exists i :: OccursAt(s, sub, i)
    decreases |s|
  {
    if |s| < |sub| {
      assert forall i :: !OccursAt(s, sub, i);
    } else if s[..|sub|] == sub {
      assert OccursAt(s, sub, 0);
    } else {
      ContainsIffOccurs(s[1..], sub);
      if Contains(s[1..], sub) {
        var j :| OccursAt(s[1..], sub, j);
        assert s[1..][j..j + |sub|] == s[j + 1..j + 1 + |sub|];
        assert OccursAt(s, sub, j + 1);
      } else {
        forall i | OccursAt(s, sub, i)
          ensures false
        {
          assert i != 0;
          assert s[1..][i - 1..i - 1 + |sub|] == s[i..i + |sub|];
          assert OccursAt(s[1..], sub, i - 1);
        }
      }
    }
  }

  /* ---------------------------------------------------------------------------
     Scanning
     --------------------------------------------------------------------------- */

  /** The longest prefix of `s` whose characters all satisfy `keep`, and the rest. */
  function Span(s: string, keep: char -> bool): (r: (string, string))
    ensures r.0 + r.1 == s
    ensures forall i :: 0 <= i < |r.0| ==> keep(r.0[i])
    ensures r.1 == [] || !keep(r.1[0])
    decreases |s|
  {
    if s == [] || !keep(s[0]) then ([], s)
    else
      var (v, rest) := Span(s[1..], keep);
      var head := [s[0]] + v;
      assert head + rest == [s[0]] + (v + rest);
      assert forall i :: 1 <= i < |head| ==> head[i] == v[i - 1];
      (head, rest)
  }

  /** The split `Span` makes is the only one with its two properties. */
  lemma SpanOf(v: string, t: string, keep: char -> bool)
    requires forall i :: 0 <= i < |v| ==> keep(v[i])
    requires t == [] || !keep(t[0])
    ensures Span(v + t, keep) == (v, t)
  {
    var (a, b) := Span(v + t, keep);
    assert a == (a + b)[..|a|] == (v + t)[..|v|] == v;
    assert b == (a + b)[|a|..] == (v + t)[|v|..] == t;
  }

  /** `s` with `prefix` removed, or `None` when `s` does not start with it. */
  function StripPrefix(s: string, prefix: string): (r: Option<string>)
    ensures r.Some? <==> prefix <= s
    ensures r.Some? ==> prefix + r.value == s
  {
    if prefix <= s then Some(s[|prefix|..]) else None
  }

  /* ---------------------------------------------------------------------------
     Decimal numerals (Python's `str(n)` and `f"{n}"` for integers)
     --------------------------------------------------------------------------- */

  function DigitChar(d: int): (c: char)
    requires 0 <= d < 10
    ensures IsDigit(c)
  {
    (d + '0' as int) as char
  }

  function DigitValue(c: char): (d: nat)
    requires IsDigit(c)
    ensures d < 10
  {
    c as int - '0' as int
  }

  /** The decimal numeral of `n`, without leading zeros. */
  function NatToString(n: nat): (r: string)
    ensures |r| >= 1 && AllDigits(r)
    ensures r[0] == '0' ==> n == 0 && r == "0"
    decreases n
  {
    if n < 10 then [DigitChar(n)]
    else NatToString(n / 10) + [DigitChar(n % 10)]
  }

  /** The value of a string of decimal digits. */
  function ParseDigits(s: string): nat
    requires AllDigits(s)
    decreases |s|
  {
    if s == [] then 0
    else 10 * ParseDigits(s[..|s| - 1]) + DigitValue(s[|s| - 1])
  }

  lemma {:induction false} ParseNatToString(n: nat)
    ensures ParseDigits(NatToString(n)) == n
    decreases n
  {
    var r := NatToString(n);
    if n >= 10 {
      ParseNatToString(n / 10);
      assert r[..|r| - 1] == NatToString(n / 10);
    }
  }

  /** Python's `str(i)` for any integer: a minus sign, then the numeral of `|i|`. */
  function IntToString(i: int): (r: string)
    ensures |r| >= 1
    ensures r[0] == '-' <==> i < 0
    ensures i < 0 ==> AllDigits(r[1..]) && ParseDigits(r[1..]) == -i
    ensures i >= 0 ==> AllDigits(r) && ParseDigits(r) == i
    ensures r[0] == '0' ==> r == "0"
    ensures i < 0 ==> |r| >= 2 && r[1] != '0'
  {
    ParseNatToString(if i < 0 then -i else i);
    if i < 0 then
      var digits := NatToString(-i);
      assert ("-" + digits)[1..] == digits;
      "-" + digits
    else NatToString(i)
  }
}
