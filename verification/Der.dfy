/**
 Definite-length DER framing (sections 8.1.3 and 10.1 of ITU-T X.690) and the walk over
 concatenated certificates. The contents of a certificate are not looked at: Node's parser is
 taken to read the first SEQUENCE and to report its length.
 */
module Der {
  import opened Wrappers

  type Byte = x: int | 0 <= x < 256
  type Bytes = seq<Byte>

  const SEQUENCE: Byte := 0x30

  function BigEndian(b: Bytes): nat {
    if b == [] then 0 else BigEndian(b[..|b| - 1]) * 256 + b[|b| - 1]
  }

  /** The base-256 digits of n, without leading zeros. */
  function Digits(n: nat): Bytes {
    if n == 0 then [] else Digits(n / 256) + [n % 256]
  }

  lemma {:induction false} DigitsValue(n: nat)
    ensures BigEndian(Digits(n)) == n
    ensures n > 0 ==> |Digits(n)| > 0 && Digits(n)[0] != 0
  {
    if n > 0 {
      DigitsValue(n / 256);
      assert Digits(n)[..|Digits(n)| - 1] == Digits(n / 256);
    }
  }

  lemma {:induction false} DigitsUnique(b: Bytes)
    requires |b| > 0 ==> b[0] != 0
    ensures Digits(BigEndian(b)) == b
    ensures |b| > 0 ==> BigEndian(b) > 0
  {
    if |b| > 0 {
      var init := b[..|b| - 1];
      DigitsUnique(init);
      LastDigit(BigEndian(init), b[|b| - 1]);
    }
  }

  lemma LastDigit(n: nat, d: Byte)
    ensures n * 256 + d > 0 ==> Digits(n * 256 + d) == Digits(n) + [d]
  {
    assert (n * 256 + d) / 256 == n && (n * 256 + d) % 256 == d;
  }

  /** Short form below 128, otherwise the shortest long form. */
  function LengthOctets(n: nat): Bytes
    requires |Digits(n)| <= 126
  {
    if n < 128 then [n] else [0x80 + |Digits(n)|] + Digits(n)
  }

  predicate Encodable(content: Bytes) {
    |Digits(|content|)| <= 126
  }

  function Encode(content: Bytes): Bytes
    requires Encodable(content)
  {
    [SEQUENCE] + LengthOctets(|content|) + content
  }

  /** The length of the SEQUENCE the bytes start with, if they start with one. */
  function FirstLength(b: Bytes): (r: Option<nat>)
    ensures r.Some? ==> 2 <= r.value <= |b|
  {
    if |b| < 2 || b[0] != SEQUENCE then None
    else
      var k := (b[1] as int) - 0x80;
      if k < 0 then Fitting(b, 2 + b[1])
      else if k == 0 || k == 127 || |b| < 2 + k || b[2] == 0 || BigEndian(b[2..2 + k]) < 128 then None
      else Fitting(b, 2 + k + BigEndian(b[2..2 + k]))
  }

  function Fitting(b: Bytes, n: nat): Option<nat> {
    if n <= |b| then Some(n) else None
  }

  /** The bytes are one element and nothing else. */
  predicate IsElement(b: Bytes) {
    FirstLength(b) == Some(|b|)
  }

  /** Reading stops at the end of the first element, whatever follows it. */
  lemma FirstOfMany(c: Bytes, rest: Bytes)
    requires IsElement(c)
    ensures FirstLength(c + rest) == Some(|c|)
  {
    var b := c + rest;
    assert b[0] == c[0] && b[1] == c[1];
    var k := (c[1] as int) - 0x80;
    if k > 0 {
      assert b[2..2 + k] == c[2..2 + k];
    }
  }

  lemma LongFormIsElement(d: Bytes, content: Bytes)
    requires 0 < |d| <= 126 && d[0] != 0 && BigEndian(d) == |content| >= 128
    ensures IsElement([SEQUENCE] + ([0x80 + |d|] + d) + content)
  {
    var b := [SEQUENCE] + ([0x80 + |d|] + d) + content;
    assert b[1] == 0x80 + |d| && b[2] == d[0];
    assert b[2..2 + |d|] == d;
  }

  lemma EncodingIsElement(content: Bytes)
    requires Encodable(content)
    ensures IsElement(Encode(content))
  {
    if |content| >= 128 {
      DigitsValue(|content|);
      LongFormIsElement(Digits(|content|), content);
    }
  }

  lemma ShortIsEncoding(b: Bytes)
    requires IsElement(b) && b[1] < 0x80
    ensures Encodable(b[2..]) && b == Encode(b[2..])
  {
    ShortDigits(|b| - 2);
    assert b == [b[0]] + [b[1]] + b[2..];
  }

  lemma LongIsEncoding(b: Bytes, k: nat)
    requires IsElement(b) && b[1] == 0x80 + k
    ensures 2 + k <= |b| && Encodable(b[2 + k..]) && b == Encode(b[2 + k..])
  {
    DigitsUnique(b[2..2 + k]);
    assert b == [b[0]] + [b[1]] + b[2..2 + k] + b[2 + k..];
  }

  lemma ElementIsEncoding(b: Bytes) returns (content: Bytes)
    requires IsElement(b)
    ensures Encodable(content) && b == Encode(content)
  {
    if b[1] < 0x80 {
      content := b[2..];
      ShortIsEncoding(b);
    } else {
      content := b[2 + (b[1] - 0x80)..];
      LongIsEncoding(b, b[1] - 0x80);
    }
  }

  /** The length octets themselves, most significant first, for content of up to four gigabytes. */
  lemma LengthForms(content: Bytes)
    requires |content| < 0x1_0000_0000
    ensures var n := |content|;
            Encodable(content) && Encode(content) ==
              [0x30]
              + (if n < 0x80 then [n]
                 else if n < 0x100 then [0x81, n]
                 else if n < 0x1_0000 then [0x82, n / 0x100, n % 0x100]
                 else if n < 0x100_0000 then [0x83, n / 0x1_0000, n / 0x100 % 0x100, n % 0x100]
                 else [0x84, n / 0x100_0000, n / 0x1_0000 % 0x100, n / 0x100 % 0x100, n % 0x100])
              + content
  {
    DigitsOf(|content|);
    DigitsOf(|content| / 0x100);
    DigitsOf(|content| / 0x1_0000);
    DigitsOf(|content| / 0x100_0000);
  }

  lemma DigitsOf(n: nat)
    ensures 0 < n < 0x100 ==> Digits(n) == [n]
    ensures n >= 0x100 ==> Digits(n) == Digits(n / 0x100) + [n % 0x100]
    ensures n / 0x100 / 0x100 == n / 0x1_0000 && n / 0x1_0000 / 0x100 == n / 0x100_0000
  {
    assert Digits(0) == [];
  }

  /** Elements are exactly the encodings: the reader accepts what the printer prints, and no more. */
  lemma ElementsAreEncodings(b: Bytes)
    ensures IsElement(b) <==> exists content :: Encodable(content) && b == Encode(content)
  {
    if IsElement(b) {
      var content := ElementIsEncoding(b);
    }
    forall content | Encodable(content) ensures IsElement(Encode(content)) {
      EncodingIsElement(content);
    }
  }

  lemma ShortDigits(n: nat)
    requires n < 128
    ensures |Digits(n)| <= 1
  {
  }

  function Join(parts: seq<Bytes>): Bytes {
    if parts == [] then [] else parts[0] + Join(parts[1..])
  }

  function Prepend(certs: seq<Bytes>, tail: Option<seq<Bytes>>): Option<seq<Bytes>> {
    if tail.None? then None else Some(certs + tail.value)
  }

  /** The elements of a concatenation, or None where Node's parser throws. */
  function Walk(b: Bytes): Option<seq<Bytes>> {
    if b == [] then Some([])
    else match FirstLength(b)
      case None => None
      case Some(n) => Prepend([b[..n]], Walk(b[n..]))
  }

  ghost predicate AllElements(parts: seq<Bytes>) {
    forall i | 0 <= i < |parts| :: IsElement(parts[i])
  }

  lemma {:induction false} WalkOfJoin(parts: seq<Bytes>)
    requires AllElements(parts)
    ensures Walk(Join(parts)) == Some(parts)
  {
    if parts != [] {
      var rest := parts[1..];
      assert AllElements(rest);
      WalkOfJoin(rest);
      var b := parts[0] + Join(rest);
      FirstOfMany(parts[0], Join(rest));
      assert b[..|parts[0]|] == parts[0] && b[|parts[0]|..] == Join(rest);
      assert [parts[0]] + rest == parts;
    }
  }

  lemma {:induction false} JoinOfWalk(b: Bytes)
    requires Walk(b).Some?
    ensures AllElements(Walk(b).value) && Join(Walk(b).value) == b
    decreases |b|
  {
    if b != [] {
      var n := FirstLength(b).value;
      JoinOfWalk(b[n..]);
      PrefixIsElement(b, n);
      var rest := Walk(b[n..]).value;
      assert ([b[..n]] + rest)[1..] == rest;
      assert b == b[..n] + b[n..];
    }
  }

  /**
   The walk inverts concatenation, in both directions: it returns `parts` if and only if they are
   single elements that concatenate to the input.
   */
  lemma WalkInvertsJoin(b: Bytes, parts: seq<Bytes>)
    ensures Walk(b) == Some(parts) <==> AllElements(parts) && Join(parts) == b
  {
    if Walk(b) == Some(parts) {
      JoinOfWalk(b);
    }
    if AllElements(parts) && Join(parts) == b {
      WalkOfJoin(parts);
    }
  }

  lemma PrefixIsElement(b: Bytes, n: nat)
    requires FirstLength(b) == Some(n)
    ensures IsElement(b[..n])
  {
    var c := b[..n];
    assert c[0] == b[0] && c[1] == b[1];
    var k := (b[1] as int) - 0x80;
    if k > 0 {
      assert c[2..2 + k] == b[2..2 + k];
    }
  }

  /** Node's X509Certificate: the first element of the buffer, or None where it throws. */
  method ParseFirst(buf: Bytes) returns (raw: Option<Bytes>)
    ensures raw.Some? ==> 0 < |raw.value| <= |buf| && raw.value == buf[..|raw.value|]
    ensures buf != [] ==>
              Walk(buf) == if raw.None? then None else Prepend([raw.value], Walk(buf[|raw.value|..]))
  {
    if buf == [] {
      return None;
    }
    var n := FirstLength(buf);
    raw := if n.None? then None else Some(buf[..n.value]);
  }

  /** `derChainToPem`, up to the textual form of each certificate. */
  method DerChainToPem(der: Bytes) returns (out: Option<seq<Bytes>>)
    ensures out == Walk(der)
  {
    var certs := [];
    var off := 0;
    assert der[0..] == der;
    PrependNothing(Walk(der));
    while off < |der|
      invariant 0 <= off <= |der|
      invariant Walk(der) == Prepend(certs, Walk(der[off..]))
      decreases |der| - off
    {
      var raw := ParseFirst(der[off..]);
      if raw.None? {
        return None;
      }
      assert der[off..][|raw.value|..] == der[off + |raw.value|..];
      PrependTwice(certs, raw.value, Walk(der[off + |raw.value|..]));
      certs := certs + [raw.value];
      off := off + |raw.value|;
    }
    assert certs + [] == certs;
    out := Some(certs);
  }

  lemma PrependNothing(tail: Option<seq<Bytes>>)
    ensures Prepend([], tail) == tail
  {
    if tail.Some? {
      assert [] + tail.value == tail.value;
    }
  }

  lemma PrependTwice(certs: seq<Bytes>, raw: Bytes, tail: Option<seq<Bytes>>)
    ensures Prepend(certs, Prepend([raw], tail)) == Prepend(certs + [raw], tail)
  {
    if tail.Some? {
      assert certs + ([raw] + tail.value) == certs + [raw] + tail.value;
    }
  }
}
