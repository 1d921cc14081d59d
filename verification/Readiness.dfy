/** What a harness announces on stdout before READY, line by line. */
module Readiness {
  import opened Wrappers
  import opened Text

  datatype Key = Version | X509Port | JWTPort | ControlPort

  function KeyName(k: Key): string {
    match k
    case Version => "SPIFFE_HARNESS_VERSION"
    case X509Port => "SPIFFE_X509_PORT"
    case JWTPort => "SPIFFE_JWT_PORT"
    case ControlPort => "SPIFFE_CONTROL_PORT"
  }

  datatype Line = Ready | Setting(key: Key, value: string) | Noise

  function KeyOf(name: string): Option<Key> {
    if name == KeyName(Version) then Some(Version)
    else if name == KeyName(X509Port) then Some(X509Port)
    else if name == KeyName(JWTPort) then Some(JWTPort)
    else if name == KeyName(ControlPort) then Some(ControlPort)
    else None
  }

  /** What a line says: READY, a value for a known key, or nothing. */
  function Meaning(line: string): Line {
    var s := Trim(line);
    if s == "READY" then Ready
    else
      var i := IndexOf(s, '=');
      if i == |s| || KeyOf(s[..i]).None? then Noise else Setting(KeyOf(s[..i]).value, s[i + 1..])
  }

  /** The value the key was last given, 0 if it never was. */
  function LastValue(lines: seq<string>, k: Key): int {
    if lines == [] then 0
    else
      var m := Meaning(lines[|lines| - 1]);
      if m.Setting? && m.key == k && Atoi(m.value).Some? then Atoi(m.value).value
      else LastValue(lines[..|lines| - 1], k)
  }

  predicate Unparsable(line: string) {
    Meaning(line).Setting? && Atoi(Meaning(line).value).None?
  }

  ghost predicate Parses(lines: seq<string>) {
    forall i | 0 <= i < |lines| :: !Unparsable(lines[i])
  }

  ghost predicate NoReady(lines: seq<string>) {
    forall i | 0 <= i < |lines| :: Meaning(lines[i]) != Ready
  }

  predicate Complete(version: int, x509Port: int, jwtPort: int, controlPort: int) {
    || (version == 0 && x509Port != 0 && jwtPort != 0)
    || (version == 1 && x509Port != 0 && controlPort != 0)
  }

  ghost predicate Announced(lines: seq<string>) {
    Complete(LastValue(lines, Version), LastValue(lines, X509Port), LastValue(lines, JWTPort), LastValue(lines, ControlPort))
  }

  datatype Error = BadNumber(key: Key) | Incomplete | Closed

  class Announcement {
    var version: int
    var x509Port: int
    var jwtPort: int
    var controlPort: int
    var ready: bool

    constructor ()
      ensures Holds([]) && !ready
    {
      version, x509Port, jwtPort, controlPort, ready := 0, 0, 0, 0, false;
    }

    ghost predicate Holds(lines: seq<string>)
      reads this
    {
      && version == LastValue(lines, Version) && x509Port == LastValue(lines, X509Port)
      && jwtPort == LastValue(lines, JWTPort) && controlPort == LastValue(lines, ControlPort)
    }

    method ParseLine(line: string, ghost before: seq<string>) returns (err: Option<Error>)
      requires Holds(before)
      modifies this
      ensures err == if Unparsable(line) then Some(BadNumber(Meaning(line).key)) else None
      ensures Holds(before + [line])
      ensures ready == (old(ready) || Meaning(line) == Ready)
    {
      assert (before + [line])[..|before|] == before;
      var s := Trim(line);
      if s == "READY" {
        ready := true;
        return None;
      }
      var i := IndexOf(s, '=');
      if i == |s| {
        return None;
      }
      var dst;
      if s[..i] == KeyName(Version) {
        dst := Version;
      } else if s[..i] == KeyName(X509Port) {
        dst := X509Port;
      } else if s[..i] == KeyName(JWTPort) {
        dst := JWTPort;
      } else if s[..i] == KeyName(ControlPort) {
        dst := ControlPort;
      } else {
        return None;
      }
      var n := Atoi(s[i + 1..]);
      if n.None? {
        return Some(BadNumber(dst));
      }
      match dst {
        case Version => version := n.value;
        case X509Port => x509Port := n.value;
        case JWTPort => jwtPort := n.value;
        case ControlPort => controlPort := n.value;
      }
      err := None;
    }

    method Validate() returns (ok: bool)
      ensures ok == Complete(version, x509Port, jwtPort, controlPort)
    {
      if version == 0 {
        ok := x509Port != 0 && jwtPort != 0;
      } else if version == 1 {
        ok := x509Port != 0 && controlPort != 0;
      } else {
        ok := false;
      }
    }

    /**
     Succeeds if and only if there is a first READY line, every value before it parses and the last
     values before it are complete; then the fields hold those values. `r` is where it stopped.
     */
    method ParseStdout(lines: seq<string>) returns (err: Option<Error>, ghost r: nat)
      requires Holds([]) && !ready
      modifies this
      ensures r <= |lines| && NoReady(lines[..r]) && Parses(lines[..r])
      ensures err.None? <==> r < |lines| && Meaning(lines[r]) == Ready && Announced(lines[..r])
      ensures err.None? ==> Holds(lines[..r])
      ensures err == Some(Closed) <==> r == |lines|
      ensures err == Some(Incomplete) <==> r < |lines| && Meaning(lines[r]) == Ready && !Announced(lines[..r])
      ensures err.Some? && err.value.BadNumber? <==> r < |lines| && Unparsable(lines[r])
    {
      r := 0;
      for i := 0 to |lines|
        invariant r == i && Holds(lines[..r]) && !ready && NoReady(lines[..r]) && Parses(lines[..r])
      {
        err := ParseLine(lines[i], lines[..i]);
        assert lines[..i + 1] == lines[..i] + [lines[i]];
        if err.Some? {
          return;
        }
        if ready {
          var ok := Validate();
          ReadySetsNothing(lines, i);
          return if ok then None else Some(Incomplete), i;
        }
        r := i + 1;
      }
      err := Some(Closed);
    }
  }

  lemma ReadySetsNothing(lines: seq<string>, i: nat)
    requires i < |lines| && Meaning(lines[i]) == Ready
    ensures forall k :: LastValue(lines[..i + 1], k) == LastValue(lines[..i], k)
  {
    assert lines[..i + 1][..i] == lines[..i];
  }

  // ---------------------------------------------------------------------------------------------
  // Printing and parsing back

  /** What a harness prints. */
  function Printed(k: Key, n: nat): string {
    match k
    case Version => "SPIFFE_HARNESS_VERSION=" + Itoa(n)
    case X509Port => "SPIFFE_X509_PORT=" + Itoa(n)
    case JWTPort => "SPIFFE_JWT_PORT=" + Itoa(n)
    case ControlPort => "SPIFFE_CONTROL_PORT=" + Itoa(n)
  }

  lemma KeyNames(k: Key)
    ensures KeyOf(KeyName(k)) == Some(k) && '=' !in KeyName(k)
    ensures |KeyName(k)| > 5 && KeyName(k)[0] == 'S'
  {
  }

  /** What a line means, told from its trimmed text alone; a line that is neither of these is noise. */
  lemma LineMeans(line: string, k: Key, value: string)
    ensures Meaning(line) == Ready <==> Trim(line) == "READY"
    ensures Meaning(line) == Setting(k, value) <==> Trim(line) == KeyName(k) + ['='] + value
  {
    var s := Trim(line);
    KeyNames(k);
    if s == KeyName(k) + ['='] + value {
      IndexOfFirst(KeyName(k), '=', value);
      assert s[..|KeyName(k)|] == KeyName(k) && s[|KeyName(k)| + 1..] == value;
      assert s[0] == 'S';
    }
    if Meaning(line) == Setting(k, value) {
      var i := IndexOf(s, '=');
      NameOfKey(s[..i]);
      assert s == s[..i] + ['='] + s[i + 1..];
    }
  }

  lemma NameOfKey(name: string)
    ensures KeyOf(name).Some? ==> KeyName(KeyOf(name).value) == name
  {
  }

  ghost predicate NoneSets(lines: seq<string>, k: Key) {
    forall i | 0 <= i < |lines| :: !Sets(lines[i], k)
  }

  /** The last line to set a key decides. */
  lemma LastSettingDecides(before: seq<string>, line: string, after: seq<string>, k: Key)
    requires Sets(line, k) && Atoi(Meaning(line).value).Some? && NoneSets(after, k)
    ensures LastValue(before + [line] + after, k) == Atoi(Meaning(line).value).value
  {
    SilentAfter(before + [line], after, k);
  }

  lemma {:induction false} SilentAfter(lines: seq<string>, after: seq<string>, k: Key)
    requires NoneSets(after, k)
    ensures LastValue(lines + after, k) == LastValue(lines, k)
  {
    if after == [] {
      assert lines + after == lines;
    } else {
      var init, last := after[..|after| - 1], after[|after| - 1];
      SilentAfter(lines, init, k);
      LastApart(lines, after);
      OneMoreLine(lines + init, last, k);
    }
  }

  lemma LastApart<T>(a: seq<T>, b: seq<T>)
    requires b != []
    ensures a + b == a + b[..|b| - 1] + [b[|b| - 1]]
  {
  }

  lemma OneMoreLine(lines: seq<string>, last: string, k: Key)
    requires !Sets(last, k)
    ensures LastValue(lines + [last], k) == LastValue(lines, k)
  {
    assert (lines + [last])[..|lines|] == lines;
  }

  /** A key never set is 0. */
  lemma {:induction false} NeverSet(lines: seq<string>, k: Key)
    requires NoneSets(lines, k)
    ensures LastValue(lines, k) == 0
  {
    if lines != [] {
      NeverSet(lines[..|lines| - 1], k);
    }
  }

  lemma CutMeans(name: string, k: Key, value: string)
    requires KeyOf(name) == Some(k) && '=' !in name && |name| > 5
    requires Trimmed(name + ['='] + value)
    ensures Meaning(name + ['='] + value) == Setting(k, value)
  {
    var s := name + ['='] + value;
    TrimOfTrimmed(s);
    IndexOfFirst(name, '=', value);
    assert s[..|name|] == name && s[|name| + 1..] == value;
  }

  lemma PrintedNames(k: Key, n: nat)
    ensures Printed(k, n) == KeyName(k) + ['='] + Itoa(n)
  {
    match k
    case Version => assert "SPIFFE_HARNESS_VERSION=" == KeyName(Version) + ['='];
    case X509Port => assert "SPIFFE_X509_PORT=" == KeyName(X509Port) + ['='];
    case JWTPort => assert "SPIFFE_JWT_PORT=" == KeyName(JWTPort) + ['='];
    case ControlPort => assert "SPIFFE_CONTROL_PORT=" == KeyName(ControlPort) + ['='];
  }

  lemma PrintedMeans(k: Key, n: nat)
    requires n <= MAX_INT
    ensures Meaning(Printed(k, n)) == Setting(k, Itoa(n)) && Atoi(Itoa(n)) == Some(n)
  {
    ItoaDigits(n);
    AtoiInvertsItoa(n);
    KeyNames(k);
    var v := Itoa(n);
    var s := KeyName(k) + ['='] + v;
    assert s[|s| - 1] == v[|v| - 1] && v[|v| - 1] in v;
    CutMeans(KeyName(k), k, v);
    PrintedNames(k, n);
  }

  /** Every line either prints one of the values or says nothing. */
  ghost predicate Prints(lines: seq<string>, values: map<Key, nat>) {
    forall i | 0 <= i < |lines| ::
      Meaning(lines[i]) == Noise || exists k :: k in values && values[k] <= MAX_INT && lines[i] == Printed(k, values[k])
  }

  ghost predicate Mentions(lines: seq<string>, k: Key) {
    lines != [] && (Sets(lines[|lines| - 1], k) || Mentions(lines[..|lines| - 1], k))
  }

  predicate Sets(line: string, k: Key) {
    Meaning(line).Setting? && Meaning(line).key == k
  }

  lemma PrintedLine(line: string, values: map<Key, nat>)
    requires Meaning(line) == Noise || exists k :: k in values && values[k] <= MAX_INT && line == Printed(k, values[k])
    ensures Meaning(line) != Ready && !Unparsable(line)
    ensures Meaning(line).Setting? ==>
              var k := Meaning(line).key;
              k in values && Atoi(Meaning(line).value) == Some(values[k])
  {
    if Meaning(line) != Noise {
      var p :| p in values && values[p] <= MAX_INT && line == Printed(p, values[p]);
      PrintedMeans(p, values[p]);
    }
  }

  lemma {:induction false} PrintedIsRead(lines: seq<string>, values: map<Key, nat>, k: Key)
    requires Prints(lines, values)
    ensures Mentions(lines, k) ==> k in values && LastValue(lines, k) == values[k]
    ensures !Mentions(lines, k) ==> LastValue(lines, k) == 0
  {
    if lines != [] {
      var n := |lines| - 1;
      PrintedIsRead(lines[..n], values, k);
      PrintedLine(lines[n], values);
    }
  }

  function ValueOf(values: map<Key, nat>, k: Key): nat {
    if k in values then values[k] else 0
  }

  predicate CompleteValues(values: map<Key, nat>) {
    Complete(ValueOf(values, Version), ValueOf(values, X509Port), ValueOf(values, JWTPort), ValueOf(values, ControlPort))
  }

  /**
   The readiness round trip. Printing each value at least once, in any order, among any lines that say
   nothing, is read back as exactly those values, and is accepted if and only if they are complete.
   */
  lemma ReadinessRoundTrip(lines: seq<string>, values: map<Key, nat>)
    requires Prints(lines, values) && forall k | k in values :: Mentions(lines, k)
    ensures NoReady(lines) && Parses(lines)
    ensures forall k :: LastValue(lines, k) == ValueOf(values, k)
    ensures Announced(lines) <==> CompleteValues(values)
  {
    forall k ensures LastValue(lines, k) == ValueOf(values, k) {
      PrintedIsRead(lines, values, k);
    }
    forall i | 0 <= i < |lines| ensures Meaning(lines[i]) != Ready && !Unparsable(lines[i]) {
      PrintedLine(lines[i], values);
    }
  }

  /**
   The round trip through the parser: what a harness prints before its READY line is what parsing the
   whole of its output yields, whatever it prints afterwards.
   */
  method ParsePrinted(lines: seq<string>, ready: string, rest: seq<string>, values: map<Key, nat>)
      returns (err: Option<Error>, version: int, x509Port: int, jwtPort: int, controlPort: int)
    requires Prints(lines, values) && forall k | k in values :: Mentions(lines, k)
    requires Trim(ready) == "READY"
    ensures err == if CompleteValues(values) then None else Some(Incomplete)
    ensures err.None? <==>
              && ValueOf(values, X509Port) != 0
              && ((ValueOf(values, Version) == 0 && ValueOf(values, JWTPort) != 0)
                  || (ValueOf(values, Version) == 1 && ValueOf(values, ControlPort) != 0))
    ensures err.None? ==>
              && version == ValueOf(values, Version) && x509Port == ValueOf(values, X509Port)
              && jwtPort == ValueOf(values, JWTPort) && controlPort == ValueOf(values, ControlPort)
  {
    ReadinessRoundTrip(lines, values);
    var output := lines + [ready] + rest;
    assert output[..|lines|] == lines && output[|lines|] == ready;
    var a := new Announcement();
    ghost var r;
    err, r := a.ParseStdout(output);
    StopsAtReady(lines, ready, rest, r);
    version, x509Port, jwtPort, controlPort := a.version, a.x509Port, a.jwtPort, a.controlPort;
  }

  /** The parser gets past lines that parse and are not READY, and not past READY. */
  lemma StopsAtReady(lines: seq<string>, ready: string, rest: seq<string>, r: nat)
    requires NoReady(lines) && Parses(lines) && Meaning(ready) == Ready
    requires var output := lines + [ready] + rest;
             && r <= |output| && NoReady(output[..r])
             && (r < |output| ==> Meaning(output[r]) == Ready || Unparsable(output[r]))
    ensures r == |lines|
  {
    var output := lines + [ready] + rest;
    assert output[|lines|] == ready;
    assert forall i | 0 <= i < |lines| :: output[i] == lines[i];
    assert forall i | 0 <= i < r :: output[..r][i] == output[i];
  }
}
