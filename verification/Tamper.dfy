/** `flipSignatureChar`: the tampered token of J5. */
module Tamper {
  function LastIndex(s: string, c: char): (i: int)
    ensures -1 <= i < |s|
    ensures i >= 0 ==> s[i] == c
    ensures forall j | i < j < |s| :: s[j] != c
  {
    if s == [] then -1 else if s[|s| - 1] == c then |s| - 1 else LastIndex(s[..|s| - 1], c)
  }

  /**
   Exactly one character changes, always to something else. It lies in the signature, so that the
   signed part and all dots stay, if and only if the token has a dot with something after it; a
   final dot is itself overwritten. The tokens J5 tampers with are freshly signed, so that something does.
   */
  method FlipSignatureChar(token: string) returns (flipped: string)
    requires token != ""
    ensures |flipped| == |token|
    ensures exists i :: 0 <= i < |token| && flipped == token[i := flipped[i]] && flipped[i] != token[i]
    ensures var dot := LastIndex(token, '.');
            dot >= 0 ==> (flipped[..dot + 1] == token[..dot + 1] <==> dot < |token| - 1)
    ensures var dot := LastIndex(token, '.');
            0 <= dot < |token| - 1 ==> LastIndex(flipped, '.') == dot
  {
    var dot := LastIndex(token, '.');
    var i := dot + (|token| - dot) / 2;
    var b := new char[|token|](k requires 0 <= k < |token| => token[k]);
    assert b[..] == token;
    if b[i] == 'A' {
      b[i] := 'B';
    } else {
      b[i] := 'A';
    }
    flipped := b[..];
    assert flipped == token[i := flipped[i]];
    if 0 <= dot < |token| - 1 {
      SameLastDot(flipped, dot);
    } else if dot >= 0 {
      assert flipped[..dot + 1][dot] != token[..dot + 1][dot];
    }
  }

  lemma SameLastDot(s: string, dot: nat)
    requires dot < |s| && s[dot] == '.' && forall j | dot < j < |s| :: s[j] != '.'
    ensures LastIndex(s, '.') == dot
  {
  }
}
