/** Small shared vocabulary: an optional value (a pandas cell that may be
    missing), the decimal rendering of a row index, and facts about
    prefixed identifiers. */
module Common {

  /** A cell or a result that may be absent (pandas NaN, Python None). */
  datatype Option<+T> = None | Some(value: T) {
    function GetOr(default: T): T {
      match this
      case Some(v) => v
      case None => default
    }
  }

  /** The character for one decimal digit. */
  function DigitChar(d: nat): (c: char)
    requires d < 10
    ensures '0' <= c <= '9'
  {
    "0123456789"[d]
  }

  /** The value of a decimal digit character (0 for any other character). */
  function DigitValue(c: char): (d: nat)
    ensures d < 10
  {
    if '0' <= c <= '9' then (c as int - '0' as int) else 0
  }

  /** Python's `str(n)` for a non-negative integer: its decimal digits,
      most significant first, with no leading zero. */
  function NatToString(n: nat): (s: string)
    decreases n
  {
    if n < 10 then [DigitChar(n)] else NatToString(n / 10) + [DigitChar(n % 10)]
  }

  /** Reads a string of decimal digits back into its value. */
  function ParseNat(s: string): (n: nat)
    decreases |s|
  {
    if s == [] then 0 else ParseNat(s[..|s| - 1]) * 10 + DigitValue(s[|s| - 1])
  }

  /** Rendering then parsing gives the number back. */
  lemma {:induction false} ParseNatToString(n: nat)
    ensures ParseNat(NatToString(n)) == n
    decreases n
  {
    var d := DigitChar(n % 10);
    assert DigitValue(d) == n % 10;
    if n >= 10 {
      var p := NatToString(n / 10);
      assert (p + [d])[..|p + [d]| - 1] == p;
      ParseNatToString(n / 10);
    } else {
      assert [d][..0] == [];
    }
  }

  /** Two different numbers never render to the same digits. */
  lemma NatToStringInjective(m: nat, n: nat)
    requires m != n
    ensures NatToString(m) != NatToString(n)
  {
    ParseNatToString(m);
    ParseNatToString(n);
  }

  /** A prefixed identifier determines what follows the prefix. */
  lemma PrefixCancel(p: string, a: string, b: string)
    requires p + a == p + b
    ensures a == b
  {
    assert a == (p + a)[|p|..];
    assert b == (p + b)[|p|..];
  }

  /** Identifiers with prefixes that disagree at a common position differ. */
  lemma PrefixesDiffer(p: string, q: string, a: string, b: string, i: nat)
    requires i < |p| && i < |q| && p[i] != q[i]
    ensures p + a != q + b
  {
    assert (p + a)[i] == p[i];
    assert (q + b)[i] == q[i];
  }
}
