/**
 * The pieces of Python's text handling that the solvers lean on, restricted to
 * well-formed input: decimal digit strings (`int()` and `str()` on naturals),
 * `str.split(sep)` with a non-empty separator, and `str.strip()`.
 */
module Text {
  import opened Wrappers

  predicate IsDigitChar(c: char) { '0' <= c <= '9' }

  function DigitOf(c: char): nat
    requires IsDigitChar(c)
  {
    (c as int) - ('0' as int)
  }

  function DigitChar(d: nat): char
    requires d < 10
  {
    (('0' as int) + d) as char
  }

  predicate AllDigits(s: string) { forall i :: 0 <= i < |s| ==> IsDigitChar(s[i]) }

  /** The value of a digit string read most significant digit first (Horner's rule). */
  function DigitsValue(s: string): nat
    requires AllDigits(s)
  {
    if s == [] then 0 else DigitsValue(s[..|s| - 1]) * 10 + DigitOf(s[|s| - 1])
  }

  /** A digit string in the form `str()` produces: no leading zero unless it is "0". */
  predicate Canonical(s: string)
  {
    |s| >= 1 && AllDigits(s) && (|s| > 1 ==> s[0] != '0')
  }

  /** `str(n)` for a natural number. */
  function Decimal(n: nat): (s: string)
    ensures Canonical(s)
    ensures |s| == 1 <==> n < 10
    decreases n
  {
    if n < 10 then [DigitChar(n)] else Decimal(n / 10) + [DigitChar(n % 10)]
  }

  lemma {:induction false} DecimalValue(n: nat)
    ensures DigitsValue(Decimal(n)) == n
    decreases n
  {
    if n >= 10 {
      var s := Decimal(n);
      assert s[..|s| - 1] == Decimal(n / 10);
      DecimalValue(n / 10);
    }
  }

  lemma {:induction false} LeadingDigitPositive(s: string)
    requires AllDigits(s) && |s| >= 1 && s[0] != '0'
    ensures DigitsValue(s) > 0
    decreases |s|
  {
    if |s| > 1 {
      var t := s[..|s| - 1];
      assert t[0] == s[0];
      LeadingDigitPositive(t);
    }
  }

  /** Reading a canonical digit string back gives the digits `str()` prints. */
  lemma {:induction false} CanonicalDecimal(s: string)
    requires Canonical(s)
    ensures Decimal(DigitsValue(s)) == s
    decreases |s|
  {
    if |s| > 1 {
      var t := s[..|s| - 1];
      assert t[0] == s[0];
      LeadingDigitPositive(t);
      CanonicalDecimal(t);
      var n := DigitsValue(s);
      assert n / 10 == DigitsValue(t) && n % 10 == DigitOf(s[|s| - 1]);
      assert s == t + [s[|s| - 1]];
    }
  }

  /** `int(s)` on a string of ASCII digits. */
  function ParseNat(s: string): (r: Option<nat>)
    ensures r.Some? <==> s != [] && AllDigits(s)
  {
    if s != [] && AllDigits(s) then Some(DigitsValue(s)) else None
  }

  lemma ParseNatDecimal(n: nat)
    ensures ParseNat(Decimal(n)) == Some(n)
  {
    DecimalValue(n);
  }

  /** `int(s)` on an optionally signed string of ASCII digits. */
  function ParseInt(s: string): (r: Option<int>)
    ensures r.Some? <==> (s != [] && AllDigits(s)) ||
                         (|s| > 1 && (s[0] == '-' || s[0] == '+') && AllDigits(s[1..]))
  {
    if |s| > 1 && s[0] == '-' && AllDigits(s[1..]) then Some(-(DigitsValue(s[1..]) as int))
    else if |s| > 1 && s[0] == '+' && AllDigits(s[1..]) then Some(DigitsValue(s[1..]))
    else if s != [] && AllDigits(s) then Some(DigitsValue(s))
    else None
  }

  /** `str(i)` for any integer. */
  function IntString(i: int): string
  {
    if i < 0 then "-" + Decimal(-i) else Decimal(i)
  }

  lemma ParseIntString(i: int)
    ensures ParseInt(IntString(i)) == Some(i)
  {
    var s := IntString(i);
    if i < 0 {
      var d := Decimal(-i);
      assert s == "-" + d && s[1..] == d;
      DecimalValue(-i);
      assert ParseInt(s) == Some(-(DigitsValue(d) as int));
    } else {
      var d := Decimal(i);
      assert IsDigitChar(d[0]);
      DecimalValue(i);
      assert ParseInt(d) == Some(DigitsValue(d));
    }
  }

  // ---------------------------------------------------------------------------
  // str.split(sep)

  predicate OccursAt(s: string, sep: string, i: nat)
  {
    i + |sep| <= |s| && s[i..i + |sep|] == sep
  }

  predicate Contains(s: string, sep: string)
  {
    exists i: nat | i <= |s| :: OccursAt(s, sep, i)
  }

  /** The first position at or after `i` where `sep` occurs, or `|s|` when there is none. */
  function FindFrom(s: string, sep: string, i: nat): (k: nat)
    requires sep != [] && i <= |s|
    ensures i <= k <= |s|
    ensures k < |s| ==> OccursAt(s, sep, k)
    ensures forall j: nat :: i <= j < k ==> !OccursAt(s, sep, j)
    decreases |s| - i
  {
    if i == |s| then |s| else if OccursAt(s, sep, i) then i else FindFrom(s, sep, i + 1)
  }

  function Join(parts: seq<string>, sep: string): string
  {
    if |parts| == 0 then "" else if |parts| == 1 then parts[0] else parts[0] + sep + Join(parts[1..], sep)
  }

  /**
   * `s.split(sep)`: the pieces between the leftmost non-overlapping occurrences of `sep`.
   * There is always at least one piece, no piece contains the separator, and joining
   * the pieces with the separator gives back the input.
   */
  function Split(s: string, sep: string): (parts: seq<string>)
    requires sep != []
    ensures |parts| >= 1
    ensures Join(parts, sep) == s
    ensures forall p :: p in parts ==> !Contains(p, sep)
    decreases |s|
  {
    var k := FindFrom(s, sep, 0);
    if k == |s| then
      assert !Contains(s, sep) by {
        forall j: nat ensures !OccursAt(s, sep, j) {
          if j < |s| {
          }
        }
      }
      [s]
    else
      var head := s[..k];
      assert !Contains(head, sep) by {
        forall j: nat | OccursAt(head, sep, j) ensures false {
          assert head[j..j + |sep|] == s[j..j + |sep|];
          assert OccursAt(s, sep, j);
        }
      }
      var rest := Split(s[k + |sep|..], sep);
      assert s == head + sep + s[k + |sep|..] by {
        assert s[k..k + |sep|] == sep;
        assert s == s[..k] + s[k..k + |sep|] + s[k + |sep|..];
      }
      [head] + rest
  }

  /** `s.strip().split(sep)`: the pieces of a text without its surrounding whitespace. */
  function StripSplit(s: string, sep: string): (parts: seq<string>)
    requires sep != []
    ensures |parts| >= 1
  {
    Split(Strip(s), sep)
  }

  /** `s.strip().split('\n')`: the lines of a text, without surrounding whitespace. */
  function Lines(s: string): (lines: seq<string>)
    ensures |lines| >= 1
  {
    StripSplit(s, "\n")
  }

  /** A first occurrence at `k` leaves none starting before `k` that runs into it. */
  lemma NoEarlierOverlap(s: string, sep: string, k: nat)
    requires sep != [] && k < |s| && FindFrom(s, sep, 0) == k
    ensures !Contains(s[..k] + sep[..|sep| - 1], sep)
  {
    var t := s[..k] + sep[..|sep| - 1];
    assert s[k..k + |sep|] == sep;
    assert t == s[..k + |sep| - 1];
    forall j: nat | j <= |t| && OccursAt(t, sep, j) ensures false {
      assert t[j..j + |sep|] == s[j..j + |sep|];
      assert OccursAt(s, sep, j);
    }
  }

  /**
   * No occurrence of the separator starts inside a piece, not even one running on
   * into the separator that follows it: the pieces end at leftmost occurrences.
   */
  predicate LeftmostPieces(parts: seq<string>, sep: string)
    requires sep != []
  {
    forall k :: 0 <= k < |parts| - 1 ==> !Contains(parts[k] + sep[..|sep| - 1], sep)
  }

  /**
   * The split is at the leftmost occurrences. Only Python's split meets this together
   * with `Split`'s contract.
   */
  lemma {:induction false} SplitLeftmost(s: string, sep: string)
    requires sep != []
    ensures LeftmostPieces(Split(s, sep), sep)
    decreases |s|
  {
    var parts := Split(s, sep);
    var k := FindFrom(s, sep, 0);
    if k < |s| {
      NoEarlierOverlap(s, sep, k);
      var rest := Split(s[k + |sep|..], sep);
      SplitLeftmost(s[k + |sep|..], sep);
      assert parts == [s[..k]] + rest;
      forall i | 1 <= i < |parts| - 1 ensures !Contains(parts[i] + sep[..|sep| - 1], sep) {
        assert parts[i] == rest[i - 1];
      }
    }
  }

  lemma {:induction false} FindFromFirst(s: string, sep: string, i: nat, k: nat)
    requires sep != [] && i <= k < |s|
    requires OccursAt(s, sep, k)
    requires forall j: nat :: i <= j < k ==> !OccursAt(s, sep, j)
    ensures FindFrom(s, sep, i) == k
    decreases k - i
  {
    if i < k {
      FindFromFirst(s, sep, i + 1, k);
    }
  }

  lemma {:induction false} FindFromNone(s: string, sep: string, i: nat)
    requires sep != [] && i <= |s|
    requires forall j: nat :: i <= j < |s| ==> !OccursAt(s, sep, j)
    ensures FindFrom(s, sep, i) == |s|
    decreases |s| - i
  {
    if i < |s| {
      FindFromNone(s, sep, i + 1);
    }
  }

  /** Splitting `a + [c] + b` on `c`, where neither side holds `c`, gives back the two sides. */
  lemma SplitPair(a: string, b: string, c: char)
    requires c !in a && c !in b
    ensures Split(a + [c] + b, [c]) == [a, b]
  {
    var s := a + [c] + b;
    forall j: nat | j < |a| ensures !OccursAt(s, [c], j) {
      assert s[j..j + 1] == [a[j]];
    }
    assert s[|a|..|a| + 1] == [c];
    FindFromFirst(s, [c], 0, |a|);
    assert s[..|a|] == a && s[|a| + 1..] == b;
    forall j: nat | j < |b| ensures !OccursAt(b, [c], j) {
      assert b[j..j + 1] == [b[j]];
    }
    FindFromNone(b, [c], 0);
  }

  /** `start, end = s.split('-')` followed by `int(start)`, `int(end)`. */
  function ParseDashPair(s: string): (r: Option<(nat, nat)>)
    ensures r.Some? <==> |Split(s, "-")| == 2 &&
                         ParseNat(Split(s, "-")[0]).Some? && ParseNat(Split(s, "-")[1]).Some?
  {
    var parts := Split(s, "-");
    if |parts| == 2 then
      match (ParseNat(parts[0]), ParseNat(parts[1]))
      case (Some(a), Some(b)) => Some((a, b))
      case _ => None
    else None
  }

  lemma DecimalHasNoDash(n: nat)
    ensures '-' !in Decimal(n)
  {
  }

  /** Printing a pair as "start-end" and parsing it back gives the pair. */
  lemma ParseDashPairRoundTrip(a: nat, b: nat)
    ensures ParseDashPair(Decimal(a) + "-" + Decimal(b)) == Some((a, b))
  {
    DecimalHasNoDash(a);
    DecimalHasNoDash(b);
    SplitPair(Decimal(a), Decimal(b), '-');
    ParseNatDecimal(a);
    ParseNatDecimal(b);
  }

  // ---------------------------------------------------------------------------
  // str.strip()

  /** ASCII whitespace, the characters `str.strip()` removes from these inputs. */
  predicate IsSpace(c: char)
  {
    c == ' ' || c == '\t' || c == '\n' || c == '\r' || c == '\U{000B}' || c == '\U{000C}'
  }

  predicate Blank(s: string) { forall i :: 0 <= i < |s| ==> IsSpace(s[i]) }

  function StripStart(s: string): string
  {
    if s != [] && IsSpace(s[0]) then StripStart(s[1..]) else s
  }

  function StripEnd(s: string): string
  {
    if s != [] && IsSpace(s[|s| - 1]) then StripEnd(s[..|s| - 1]) else s
  }

  /** `lstrip()` drops a whitespace prefix and stops at the first other character. */
  lemma {:induction false} StripStartDrops(s: string)
    ensures |StripStart(s)| <= |s| && StripStart(s) == s[|s| - |StripStart(s)|..]
    ensures Blank(s[..|s| - |StripStart(s)|])
    ensures StripStart(s) != [] ==> !IsSpace(StripStart(s)[0])
  {
    if s != [] && IsSpace(s[0]) {
      StripStartDrops(s[1..]);
      var k := |s| - |StripStart(s)|;
      assert forall i :: 1 <= i < k ==> s[..k][i] == s[1..][..k - 1][i - 1];
    }
  }

  /** `rstrip()` drops a whitespace suffix and stops at the last other character. */
  lemma {:induction false} StripEndDrops(s: string)
    ensures |StripEnd(s)| <= |s| && StripEnd(s) == s[..|StripEnd(s)|]
    ensures Blank(s[|StripEnd(s)|..])
    ensures StripEnd(s) != [] ==> !IsSpace(StripEnd(s)[|StripEnd(s)| - 1])
  {
    if s != [] && IsSpace(s[|s| - 1]) {
      var s' := s[..|s| - 1];
      StripEndDrops(s');
      var k := |StripEnd(s)|;
      assert forall j :: 0 <= j < |s| - 1 - k ==> s[k..][j] == s'[k..][j];
    }
  }

  /** `s.strip()`: what is left after removing leading and trailing whitespace. */
  function Strip(s: string): string
  {
    StripEnd(StripStart(s))
  }

  /**
   * `strip()` keeps a slice of its argument that neither starts nor ends with
   * whitespace, removes only whitespace, and leaves nothing exactly when the
   * argument is all whitespace.
   */
  lemma StripTrims(s: string)
    ensures Strip(s) != [] ==> !IsSpace(Strip(s)[0]) && !IsSpace(Strip(s)[|Strip(s)| - 1])
    ensures exists a: nat, b: nat :: a <= b <= |s| && Strip(s) == s[a..b] && Blank(s[..a]) && Blank(s[b..])
    ensures Strip(s) == [] <==> Blank(s)
  {
    var t := StripStart(s);
    StripStartDrops(s);
    StripEndDrops(t);
    var r := StripEnd(t);
    var a := |s| - |t|;
    var b := a + |r|;
    assert r == s[a..b];
    assert Blank(s[b..]) by {
      assert s[b..] == t[|r|..];
    }
    assert r == [] ==> Blank(s) by {
      if r == [] {
        assert t[|r|..] == t;
        assert s[..a] == s;
      }
    }
  }
}
