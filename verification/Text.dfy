/** The parts of Go's strings and strconv packages that the suite parses with. */
module Text {
  import opened Wrappers

  /** unicode.IsSpace. */
  predicate IsSpace(c: char) {
    var n := c as int;
    || 0x09 <= n <= 0x0D || n == 0x20 || n == 0x85 || n == 0xA0 || n == 0x1680
    || 0x2000 <= n <= 0x200A || n == 0x2028 || n == 0x2029 || n == 0x202F || n == 0x205F || n == 0x3000
  }

  function TrimLeft(s: string): string {
    if s != [] && IsSpace(s[0]) then TrimLeft(s[1..]) else s
  }

  function TrimRight(s: string): string {
    if s != [] && IsSpace(s[|s| - 1]) then TrimRight(s[..|s| - 1]) else s
  }

  /** strings.TrimSpace. */
  function Trim(s: string): string {
    TrimRight(TrimLeft(s))
  }

  /** Neither starts nor ends with white space. */
  predicate Trimmed(s: string) {
    s == [] || (!IsSpace(s[0]) && !IsSpace(s[|s| - 1]))
  }

  lemma TrimOfTrimmed(s: string)
    requires Trimmed(s)
    ensures Trim(s) == s
  {
  }

  /** Trimming takes white space off both ends and nothing else, for as long as there is any. */
  lemma TrimMeans(s: string) returns (i: nat, j: nat)
    ensures i <= j <= |s| && Trim(s) == s[i..j] && Trimmed(Trim(s))
    ensures (forall k | 0 <= k < i :: IsSpace(s[k])) && (forall k | j <= k < |s| :: IsSpace(s[k]))
  {
    i := LeftEnd(s);
    j := RightEnd(s[i..]);
    assert s[i..][..j] == s[i..i + j];
    assert forall k | i + j <= k < |s| :: s[k] == s[i..][k - i];
    j := i + j;
  }

  lemma {:induction false} LeftEnd(s: string) returns (i: nat)
    ensures i <= |s| && TrimLeft(s) == s[i..] && (forall k | 0 <= k < i :: IsSpace(s[k]))
    ensures i < |s| ==> !IsSpace(s[i])
  {
    i := 0;
    if s != [] && IsSpace(s[0]) {
      var k := LeftEnd(s[1..]);
      i := k + 1;
    }
  }

  lemma {:induction false} RightEnd(s: string) returns (j: nat)
    ensures j <= |s| && TrimRight(s) == s[..j] && (forall k | j <= k < |s| :: IsSpace(s[k]))
    ensures j > 0 ==> !IsSpace(s[j - 1])
  {
    j := |s|;
    if s != [] && IsSpace(s[|s| - 1]) {
      j := RightEnd(s[..|s| - 1]);
    }
  }

  /** The position of the first occurrence, or the length. */
  function IndexOf(s: string, c: char): (i: nat)
    ensures i <= |s| && (i < |s| ==> s[i] == c) && c !in s[..i]
  {
    if s == [] || s[0] == c then 0 else 1 + IndexOf(s[1..], c)
  }

  lemma {:induction false} IndexOfFirst(a: string, c: char, b: string)
    requires c !in a
    ensures IndexOf(a + [c] + b, c) == |a|
  {
    if a != [] {
      assert (a + [c] + b)[1..] == a[1..] + [c] + b;
      IndexOfFirst(a[1..], c, b);
    }
  }

  /** strings.Split. */
  function Split(s: string, sep: char): seq<string>
    decreases |s|
  {
    var i := IndexOf(s, sep);
    if i == |s| then [s] else [s[..i]] + Split(s[i + 1..], sep)
  }

  /** The parts with the separator in between. */
  function JoinWith(parts: seq<string>, sep: char): string
    requires parts != []
  {
    if |parts| == 1 then parts[0] else parts[0] + [sep] + JoinWith(parts[1..], sep)
  }

  /** Splitting inverts joining, in both directions. */
  lemma {:induction false} SplitInvertsJoin(s: string, parts: seq<string>, sep: char)
    ensures Split(s, sep) == parts <==>
              parts != [] && JoinWith(parts, sep) == s && forall p | p in parts :: sep !in p
    decreases |s| + |parts|
  {
    var i := IndexOf(s, sep);
    if Split(s, sep) == parts {
      if i < |s| {
        SplitInvertsJoin(s[i + 1..], parts[1..], sep);
        assert s == s[..i] + [sep] + s[i + 1..];
        assert parts == [parts[0]] + parts[1..];
      } else {
        assert s[..i] == s;
      }
    }
    if parts != [] && JoinWith(parts, sep) == s && forall p | p in parts :: sep !in p {
      assert parts[0] in parts;
      if |parts| == 1 {
        assert i == |s|;
      } else {
        IndexOfFirst(parts[0], sep, JoinWith(parts[1..], sep));
        assert s[..i] == parts[0] && s[i + 1..] == JoinWith(parts[1..], sep);
        SplitInvertsJoin(s[i + 1..], parts[1..], sep);
        assert parts == [parts[0]] + parts[1..];
      }
    }
  }

  // ---------------------------------------------------------------------------------------------
  // Decimal numbers

  const MAX_INT := 0x7FFF_FFFF_FFFF_FFFF

  predicate IsDigit(c: char) {
    '0' <= c <= '9'
  }

  predicate AllDigits(s: string) {
    forall c | c in s :: IsDigit(c)
  }

  function DigitChar(d: nat): char
    requires d < 10
  {
    ('0' as int + d) as char
  }

  /** %d for a number that is not negative. */
  function Itoa(n: nat): string {
    if n < 10 then [DigitChar(n)] else Itoa(n / 10) + [DigitChar(n % 10)]
  }

  function DigitsValue(s: string): nat
    requires AllDigits(s)
  {
    if s == [] then 0
    else
      assert s[|s| - 1] in s;
      10 * DigitsValue(s[..|s| - 1]) + (s[|s| - 1] as int - '0' as int)
  }

  /** strconv.Atoi: an optional sign, at least one digit, and a value that fits 64 bits. */
  function Atoi(s: string): Option<int> {
    var signed := s != [] && (s[0] == '-' || s[0] == '+');
    var digits := if signed then s[1..] else s;
    if digits == [] || !AllDigits(digits) then None
    else
      var v: int := DigitsValue(digits);
      var n := if signed && s[0] == '-' then 0 - v else v;
      if -MAX_INT - 1 <= n <= MAX_INT then Some(n) else None
  }

  lemma {:induction false} ItoaDigits(n: nat)
    ensures Itoa(n) != [] && AllDigits(Itoa(n)) && DigitsValue(Itoa(n)) == n
  {
    if n >= 10 {
      ItoaDigits(n / 10);
      assert Itoa(n)[..|Itoa(n)| - 1] == Itoa(n / 10);
    }
  }

  /** The decimal round trip. */
  lemma AtoiInvertsItoa(n: nat)
    requires n <= MAX_INT
    ensures Atoi(Itoa(n)) == Some(n)
  {
    ItoaDigits(n);
    assert Itoa(n)[0] in Itoa(n);
  }

  /** With a sign, too, and as far as 64 bits go; anything that is not digits is refused. */
  lemma AtoiOfSigned(n: nat, s: string)
    ensures Atoi("-" + Itoa(n)) == if n <= MAX_INT + 1 then Some(0 - (n as int)) else None
    ensures Atoi("+" + Itoa(n)) == if n <= MAX_INT then Some(n) else None
    ensures n > MAX_INT ==> Atoi(Itoa(n)) == None
    ensures (exists i :: 0 < i < |s| && !IsDigit(s[i])) || s in {"", "-", "+"} ==> Atoi(s) == None
    ensures s != "" && !IsDigit(s[0]) && s[0] != '-' && s[0] != '+' ==> Atoi(s) == None
  {
    ItoaDigits(n);
    assert Itoa(n)[0] in Itoa(n);
    assert ("-" + Itoa(n))[1..] == Itoa(n) && ("+" + Itoa(n))[1..] == Itoa(n);
    forall i | 0 < i < |s| && !IsDigit(s[i]) ensures !AllDigits(s) && !AllDigits(s[1..]) {
      assert s[i] in s && s[1..][i - 1] in s[1..];
    }
    assert s != "" ==> s[0] in s;
  }

  /** Most significant digit first, in base ten. */
  lemma Decimal()
    ensures Itoa(65535) == "65535" && Itoa(1024) == "1024" && Itoa(0) == "0"
  {
    assert Itoa(6) == "6" && Itoa(65) == "65" && Itoa(655) == "655" && Itoa(6553) == "6553";
    assert Itoa(10) == "10" && Itoa(102) == "102";
  }
}
