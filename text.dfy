/**
 * String helpers used to build request paths and query strings: joining and
 * splitting on a separator (Go's strings.Join and strings.Split) and decimal
 * rendering of integers (Go's %d verb), each with an inverse.
 */
module Text {

  /** The index of the first occurrence of `c` in `s`, or |s| when `c` does not occur. */
  function IndexOf(s: string, c: char): (i: nat)
    ensures i <= |s|
    ensures forall j :: 0 <= j < i ==> s[j] != c
    ensures i < |s| ==> s[i] == c
    decreases |s|
  {
    if s == [] then 0
    else if s[0] == c then 0
    else 1 + IndexOf(s[1..], c)
  }

  /** True when no part contains the separator. */
  predicate Separable(parts: seq<string>, sep: char)
  {
    forall k :: 0 <= k < |parts| ==> sep !in parts[k]
  }

  /** The parts joined with `sep` between neighbours, as strings.Join does. */
  function Join(parts: seq<string>, sep: char): (s: string)
    ensures forall c :: c != sep && Separable(parts, c) ==> c !in s
    decreases |parts|
  {
    if |parts| == 0 then ""
    else if |parts| == 1 then parts[0]
    else parts[0] + [sep] + Join(parts[1..], sep)
  }

  /** Joining a part in front of a non-empty list puts one separator between them. */
  lemma JoinCons(p: string, parts: seq<string>, sep: char)
    requires parts != []
    ensures Join([p] + parts, sep) == p + [sep] + Join(parts, sep)
  {
    assert ([p] + parts)[1..] == parts;
  }

  /** The pieces of `s` between occurrences of `sep`, as strings.Split does. */
  function Split(s: string, sep: char): (parts: seq<string>)
    ensures |parts| >= 1
    ensures Separable(parts, sep)
    ensures sep !in s ==> parts == [s]
    decreases |s|
  {
    var i := IndexOf(s, sep);
    if i == |s| then [s]
    else
      assert sep !in s[..i];
      [s[..i]] + Split(s[i + 1..], sep)
  }

  /** Splitting a joined list recovers the list, provided no part contains the separator. */
  lemma {:induction false} SplitJoin(parts: seq<string>, sep: char)
    requires |parts| >= 1
    requires Separable(parts, sep)
    ensures Split(Join(parts, sep), sep) == parts
    decreases |parts|
  {
    assert sep !in parts[0];
    if |parts| == 1 {
      assert IndexOf(parts[0], sep) == |parts[0]|;
    } else {
      SplitJoin(parts[1..], sep);
      SplitCons(parts[0], sep, Join(parts[1..], sep));
      assert [parts[0]] + parts[1..] == parts;
    }
  }

  /** A piece without the separator, then the separator, splits as that piece and the rest. */
  lemma SplitCons(piece: string, sep: char, rest: string)
    requires sep !in piece
    ensures Split(piece + [sep] + rest, sep) == [piece] + Split(rest, sep)
  {
    var s := piece + [sep] + rest;
    assert s[|piece|] == sep;
    assert forall j :: 0 <= j < |piece| ==> s[j] == piece[j];
    assert IndexOf(s, sep) == |piece|;
    assert s[..|piece|] == piece;
    assert s[|piece| + 1..] == rest;
  }

  /** The text before the first `sep` of `s` (all of `s` when there is none). */
  function Before(s: string, sep: char): string
  {
    s[..IndexOf(s, sep)]
  }

  /** The text after the first `sep` of `s` ("" when there is none). */
  function After(s: string, sep: char): string
  {
    var i := IndexOf(s, sep);
    if i == |s| then "" else s[i + 1..]
  }

  /** A "key<sep>value" string splits back into its key and value when the key has no separator. */
  lemma BeforeAfter(key: string, sep: char, value: string)
    requires sep !in key
    ensures Before(key + [sep] + value, sep) == key
    ensures After(key + [sep] + value, sep) == value
  {
    var s := key + [sep] + value;
    assert s[|key|] == sep;
    assert forall j :: 0 <= j < |key| ==> s[j] == key[j];
    assert IndexOf(s, sep) == |key|;
    assert s[..|key|] == key;
    assert s[|key| + 1..] == value;
  }

  /** True for the characters '0' to '9'. */
  predicate IsDigit(c: char)
  {
    '0' <= c <= '9'
  }

  /** The character for a decimal digit. */
  function DigitChar(d: nat): (c: char)
    requires d < 10
    ensures IsDigit(c) && c as int - '0' as int == d
  {
    (d + '0' as int) as char
  }

  /** The decimal digits of `n`, most significant first, without leading zeros. */
  function NatToString(n: nat): (s: string)
    ensures |s| >= 1 && forall k :: 0 <= k < |s| ==> IsDigit(s[k])
    ensures |s| > 1 ==> s[0] != '0'
    decreases n
  {
    if n < 10 then [DigitChar(n)] else NatToString(n / 10) + [DigitChar(n % 10)]
  }

  /** A signed decimal, as Go's %d verb renders an int. */
  function IntToString(i: int): (s: string)
    ensures |s| >= 1
    ensures (s[0] == '-') <==> i < 0
    ensures forall k :: (if i < 0 then 1 else 0) <= k < |s| ==> IsDigit(s[k])
  {
    if i < 0 then "-" + NatToString(-i) else NatToString(i)
  }

  /** No separator or other non-digit but a leading '-' appears in a rendered integer. */
  lemma IntToStringChars(i: int, c: char)
    requires !IsDigit(c) && c != '-'
    ensures c !in IntToString(i)
  {
    var s := IntToString(i);
    forall k | 0 <= k < |s| ensures s[k] != c {
      if k > 0 || i >= 0 { assert IsDigit(s[k]); }
    }
  }

  /** The value of a string of decimal digits. */
  function DigitsValue(s: string): nat
    requires forall k :: 0 <= k < |s| ==> IsDigit(s[k])
    decreases |s|
  {
    if s == [] then 0
    else
      assert IsDigit(s[|s| - 1]);
      10 * DigitsValue(s[..|s| - 1]) + (s[|s| - 1] as int - '0' as int)
  }

  /** The value of a signed decimal. */
  function ParseDecimal(s: string): int
    requires |s| >= 1
    requires forall k :: (if s[0] == '-' then 1 else 0) <= k < |s| ==> IsDigit(s[k])
  {
    if s[0] == '-' then -(DigitsValue(s[1..]) as int) else DigitsValue(s)
  }

  lemma {:induction false} DigitsValueOfNatToString(n: nat)
    ensures DigitsValue(NatToString(n)) == n
    decreases n
  {
    if n >= 10 {
      var s := NatToString(n);
      DigitsValueOfNatToString(n / 10);
      assert s[..|s| - 1] == NatToString(n / 10);
    }
  }

  /** Parsing the rendering of an integer gives the integer back. */
  lemma IntToStringRoundTrip(i: int)
    ensures ParseDecimal(IntToString(i)) == i
  {
    if i < 0 {
      DigitsValueOfNatToString(-i);
      assert IntToString(i)[1..] == NatToString(-i);
    } else {
      DigitsValueOfNatToString(i);
    }
  }
}
