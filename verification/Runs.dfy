/** `suite run`: which test cases run, in which order, and what the report and the exit status say. */
module Runs {
  import opened Wrappers
  import opened Text
  import opened ErrorTrees
  import opened Lifecycle

  /** A registered test case; `id` tells apart two that share a name. */
  datatype TestCase = TestCase(name: string, id: nat)

  datatype Result = Result(name: string, status: Status)

  // ---------------------------------------------------------------------------------------------
  // The report

  function CountOf(results: seq<Result>, s: Status): nat {
    if results == [] then 0
    else CountOf(results[..|results| - 1], s) + if results[|results| - 1].status == s then 1 else 0
  }

  lemma {:induction false} CountsAddUp(results: seq<Result>)
    ensures CountOf(results, PASS) + CountOf(results, FAIL) + CountOf(results, SKIP) + CountOf(results, ERROR) == |results|
  {
    if results != [] {
      CountsAddUp(results[..|results| - 1]);
    }
  }

  lemma {:induction false} CountIsPositive(results: seq<Result>, s: Status)
    ensures CountOf(results, s) > 0 <==> exists i :: 0 <= i < |results| && results[i].status == s
  {
    if results != [] {
      var init := results[..|results| - 1];
      CountIsPositive(init, s);
      assert forall i | 0 <= i < |init| :: init[i] == results[i];
    }
  }

  class Report {
    var results: seq<Result>
    var passed: nat
    var failed: nat
    var skipped: nat
    var errors: nat

    ghost predicate Valid()
      reads this
    {
      && passed == CountOf(results, PASS) && failed == CountOf(results, FAIL)
      && skipped == CountOf(results, SKIP) && errors == CountOf(results, ERROR)
    }

    constructor ()
      ensures Valid() && results == []
    {
      results, passed, failed, skipped, errors := [], 0, 0, 0, 0;
    }

    method Add(res: Result)
      requires Valid()
      modifies this
      ensures Valid() && results == old(results) + [res]
      ensures passed == old(passed) + if res.status == PASS then 1 else 0
      ensures failed == old(failed) + if res.status == FAIL then 1 else 0
      ensures skipped == old(skipped) + if res.status == SKIP then 1 else 0
      ensures errors == old(errors) + if res.status == ERROR then 1 else 0
    {
      assert (results + [res])[..|results|] == results;
      results := results + [res];
      match res.status
      case PASS => passed := passed + 1;
      case FAIL => failed := failed + 1;
      case SKIP => skipped := skipped + 1;
      case ERROR => errors := errors + 1;
    }
  }

  // ---------------------------------------------------------------------------------------------
  // Selecting test cases

  function Names(cases: seq<TestCase>): seq<string> {
    seq(|cases|, i requires 0 <= i < |cases| => cases[i].name)
  }

  ghost predicate UniqueNames(cases: seq<TestCase>) {
    forall i, j | 0 <= i < j < |cases| :: cases[i].name != cases[j].name
  }

  /** The first case of each wanted name, in registry order. */
  function Selected(all: seq<TestCase>, want: set<string>): seq<TestCase> {
    if all == [] then []
    else if all[0].name in want then [all[0]] + Selected(all[1..], want - {all[0].name})
    else Selected(all[1..], want)
  }

  /** The sub-sequence of cases whose name is wanted. */
  function Restricted(all: seq<TestCase>, want: set<string>): seq<TestCase> {
    if all == [] then []
    else (if all[0].name in want then [all[0]] else []) + Restricted(all[1..], want)
  }

  /** Every wanted name found is selected exactly once, duplicates in the registry or not. */
  lemma {:induction false} SelectedOnce(all: seq<TestCase>, want: set<string>)
    ensures UniqueNames(Selected(all, want))
    ensures forall n :: n in Names(Selected(all, want)) <==> n in want && n in Names(all)
  {
    if all != [] {
      var s := Selected(all, want);
      SelectedOnce(all[1..], want - {all[0].name});
      SelectedOnce(all[1..], want);
      assert Names(all) == [all[0].name] + Names(all[1..]);
      if all[0].name in want {
        var rest := Selected(all[1..], want - {all[0].name});
        assert Names(s) == [all[0].name] + Names(rest);
        forall i, j | 0 <= i < j < |s| ensures s[i].name != s[j].name {
          assert s[j] == rest[j - 1] && Names(rest)[j - 1] == s[j].name;
          assert Names(rest)[j - 1] in Names(rest);
        }
      }
    }
  }

  /**
   The selection follows the order of the registry, duplicates in it or not: what the first part of it
   yields comes first, and the rest yields nothing under the same names.
   */
  lemma {:induction false} SelectedInOrder(a: seq<TestCase>, b: seq<TestCase>, c: TestCase, want: set<string>)
    ensures Selected(a + b, want) == Selected(a, want) + Selected(b, want - set n | n in Names(a))
    ensures Selected([c], want) == if c.name in want then [c] else []
  {
    if a == [] {
      assert a + b == b && want - (set n | n in Names(a)) == want;
    } else {
      var want' := want - {a[0].name};
      assert (a + b)[0] == a[0] && (a + b)[1..] == a[1..] + b;
      assert Names(a) == [a[0].name] + Names(a[1..]);
      SelectedInOrder(a[1..], b, c, if a[0].name in want then want' else want);
      assert want - (set n | n in Names(a)) ==
             (if a[0].name in want then want' else want) - (set n | n in Names(a[1..]));
    }
  }

  /** With unique names the selection is the registry restricted to what was asked for, in its order. */
  lemma {:induction false} SelectedIsRestricted(all: seq<TestCase>, want: set<string>)
    requires UniqueNames(all)
    ensures Selected(all, want) == Restricted(all, want)
  {
    if all != [] {
      SelectedIsRestricted(all[1..], want);
      SelectedIsRestricted(all[1..], want - {all[0].name});
      if all[0].name in want {
        RestrictedIgnores(all[1..], want, all[0].name);
      }
    }
  }

  lemma {:induction false} RestrictedIgnores(all: seq<TestCase>, want: set<string>, name: string)
    requires forall i | 0 <= i < |all| :: all[i].name != name
    ensures Restricted(all, want - {name}) == Restricted(all, want)
  {
    if all != [] {
      RestrictedIgnores(all[1..], want, name);
    }
  }

  /** selectCases: an error if and only if a requested name is not registered. */
  method SelectCases(all: seq<TestCase>, requested: seq<string>) returns (r: Option<seq<TestCase>>)
    ensures requested == [] ==> r == Some(all)
    ensures requested != [] ==> (r.None? <==> exists n :: n in requested && n !in Names(all))
    ensures requested != [] && r.Some? ==> r.value == Selected(all, set n | n in requested)
  {
    if requested == [] {
      return Some(all);
    }
    var want := set n | n in requested;
    ghost var asked := want;
    var out := [];
    for i := 0 to |all|
      invariant want == asked - (set n | n in Names(all[..i]))
      invariant Selected(all, asked) == out + Selected(all[i..], want)
    {
      assert all[i..][0] == all[i] && all[i..][1..] == all[i + 1..];
      assert Names(all[..i + 1]) == Names(all[..i]) + [all[i].name];
      if all[i].name in want {
        out := out + [all[i]];
        want := want - {all[i].name};
      }
    }
    assert all[..|all|] == all;
    if want != {} {
      var n :| n in want;
      assert n in requested && n !in Names(all);
      return None;
    }
    r := Some(out);
    assert Selected(all[|all|..], want) == [];
    forall n | n in requested ensures n in Names(all) {
      assert n in asked && n !in want;
    }
  }

  function FirstNamed(all: seq<TestCase>, name: string): Option<TestCase> {
    if all == [] then None
    else if all[0].name == name then Some(all[0])
    else FirstNamed(all[1..], name)
  }

  lemma {:induction false} NamedIsFound(all: seq<TestCase>, name: string)
    ensures FirstNamed(all, name).Some? <==> name in Names(all)
    ensures FirstNamed(all, name).Some? ==> FirstNamed(all, name).value.name == name
  {
    if all != [] {
      NamedIsFound(all[1..], name);
      assert Names(all) == [all[0].name] + Names(all[1..]);
    }
  }

  /** The case found is the first of that name. */
  lemma {:induction false} FoundIsFirst(all: seq<TestCase>, i: nat)
    requires i < |all| && forall j | 0 <= j < i :: all[j].name != all[i].name
    ensures FirstNamed(all, all[i].name) == Some(all[i])
  {
    if i > 0 {
      assert all[0].name != all[i].name;
      assert forall j | 0 <= j < i - 1 :: all[1..][j] == all[j + 1];
      FoundIsFirst(all[1..], i - 1);
    }
  }

  /** With unique names, looking a case up by its name finds the case itself. */
  lemma {:induction false} NamedIsItself(all: seq<TestCase>, i: nat)
    requires UniqueNames(all) && i < |all|
    ensures FirstNamed(all, all[i].name) == Some(all[i])
  {
    if i > 0 {
      NamedIsItself(all[1..], i - 1);
    }
  }

  /** suite.Lookup. */
  method Lookup(all: seq<TestCase>, name: string) returns (r: Option<TestCase>)
    ensures r == FirstNamed(all, name)
  {
    for i := 0 to |all|
      invariant FirstNamed(all, name) == FirstNamed(all[i..], name)
    {
      assert all[i..][0] == all[i] && all[i..][1..] == all[i + 1..];
      if all[i].name == name {
        return Some(all[i]);
      }
    }
    r := None;
  }

  // ---------------------------------------------------------------------------------------------
  // The whole run

  datatype Exit = Completed | NotExecuted | Failed

  /** The process exit status of the CLI. */
  function ExitCode(e: Exit): int {
    match e
    case Completed => 0
    case NotExecuted => 2
    case Failed => 1
  }

  function Cases(all: seq<TestCase>, requested: seq<string>): seq<TestCase> {
    if requested == [] then all else Selected(all, set n | n in requested)
  }

  lemma CasesAreRegistered(all: seq<TestCase>, requested: seq<string>, i: nat)
    requires i < |Cases(all, requested)|
    ensures Cases(all, requested)[i].name in Names(all)
  {
    var cases := Cases(all, requested);
    assert Names(cases)[i] == cases[i].name && Names(cases)[i] in Names(cases);
    SelectedOnce(all, set n | n in requested);
  }

  /** The results of running the cases one after the other. */
  ghost predicate RunInOrder(all: seq<TestCase>, cases: seq<TestCase>, plan: (nat, TestCase) -> Plan, results: seq<Result>) {
    && |results| == |cases|
    && (forall i | 0 <= i < |cases| ::
          var run := FirstNamed(all, cases[i].name);
          run.Some? && results[i] == Result(cases[i].name, StatusOf(plan(i, run.value))))
  }

  lemma RunOneMore(all: seq<TestCase>, cases: seq<TestCase>, plan: (nat, TestCase) -> Plan, results: seq<Result>)
    requires cases != [] && RunInOrder(all, cases[..|cases| - 1], plan, results)
    requires FirstNamed(all, cases[|cases| - 1].name).Some?
    ensures var i := |cases| - 1;
            var run := FirstNamed(all, cases[i].name).value;
            RunInOrder(all, cases, plan, results + [Result(cases[i].name, StatusOf(plan(i, run)))])
  {
    var init := cases[..|cases| - 1];
    forall i | 0 <= i < |init|
      ensures FirstNamed(all, cases[i].name).Some?
      ensures results[i] == Result(cases[i].name, StatusOf(plan(i, FirstNamed(all, cases[i].name).value)))
    {
      assert init[i] == cases[i];
    }
  }

  method RunEach(host: Host, all: seq<TestCase>, cases: seq<TestCase>, plan: (nat, TestCase) -> Plan) returns (report: Report)
    requires Held(host.events) == Some(Empty)
    requires forall i | 0 <= i < |cases| :: cases[i].name in Names(all)
    modifies host
    ensures Held(host.events) == Some(Empty)
    ensures fresh(report) && report.Valid() && RunInOrder(all, cases, plan, report.results)
  {
    report := new Report();
    for i := 0 to |cases|
      invariant Held(host.events) == Some(Empty)
      invariant fresh(report) && report.Valid() && RunInOrder(all, cases[..i], plan, report.results)
    {
      var tc := Lookup(all, cases[i].name);
      NamedIsFound(all, cases[i].name);
      var status, hasEnv := RunCase(host, plan(i, tc.value));
      assert cases[..i + 1][..i] == cases[..i];
      RunOneMore(all, cases[..i + 1], plan, report.results);
      report.Add(Result(tc.value.name, status));
    }
    assert cases[..|cases|] == cases;
  }

  /** The i-th case could not be carried out. */
  ghost predicate CouldNotRun(all: seq<TestCase>, cases: seq<TestCase>, plan: (nat, TestCase) -> Plan, i: nat) {
    && i < |cases| && FirstNamed(all, cases[i].name).Some?
    && var p := plan(i, FirstNamed(all, cases[i].name).value);
       || !p.ComesUp()
       || p.test.Panics?
       || (Fails(p) && (!exists path :: SkipAt(p.test.err.value, path)) && exists path :: ExecAt(p.test.err.value, path))
  }

  /**
   runSuite. `plan(i, tc)` says how the i-th run goes, whatever that depends on; `written` tells
   whether printing and writing the results work. The exit status is 2 if and only if some case could
   not be set up, panicked, or ended with an ExecutionError and no SkipError anywhere in its error.
   Nothing the cases acquired is held afterwards.
   */
  method RunSuite(host: Host, all: seq<TestCase>, requested: seq<string>, plan: (nat, TestCase) -> Plan, written: bool)
      returns (exit: Exit, report: Report)
    requires Held(host.events) == Some(Empty)
    modifies host
    ensures Held(host.events) == Some(Empty)
    ensures fresh(report) && report.Valid()
    ensures report.passed + report.failed + report.skipped + report.errors == |report.results|
    ensures (exists n :: n in requested && n !in Names(all)) ==> ExitCode(exit) == 1 && report.results == []
    ensures (forall n | n in requested :: n in Names(all)) ==>
              var cases := Cases(all, requested);
              && RunInOrder(all, cases, plan, report.results)
              && (ExitCode(exit) == 1 <==> !written)
              && (ExitCode(exit) == 2 <==> written && exists i :: CouldNotRun(all, cases, plan, i))
              && (ExitCode(exit) == 0 <==> written && !exists i :: CouldNotRun(all, cases, plan, i))
  {
    var selected := SelectCases(all, requested);
    if selected.None? {
      report := new Report();
      return Failed, report;
    }
    forall i | 0 <= i < |selected.value| ensures selected.value[i].name in Names(all) {
      CasesAreRegistered(all, requested, i);
    }
    report := RunEach(host, all, selected.value, plan);
    CountsAddUp(report.results);
    ErrorsCouldNotRun(all, selected.value, plan, report.results);
    if !written {
      return Failed, report;
    }
    exit := if report.errors > 0 then NotExecuted else Completed;
  }

  lemma ErrorsCouldNotRun(all: seq<TestCase>, cases: seq<TestCase>, plan: (nat, TestCase) -> Plan, results: seq<Result>)
    requires RunInOrder(all, cases, plan, results)
    ensures CountOf(results, ERROR) > 0 <==> exists i :: CouldNotRun(all, cases, plan, i)
  {
    CountIsPositive(results, ERROR);
    forall i: nat | i < |cases| ensures results[i].status == ERROR <==> CouldNotRun(all, cases, plan, i) {
      StatusMeans(plan(i, FirstNamed(all, cases[i].name).value));
    }
  }

  /**
   With unique names the cases that run are the registry restricted to the requested names, in
   registry order, and each is run under its own name.
   */
  lemma RegistryOrder(all: seq<TestCase>, requested: seq<string>, i: nat)
    requires UniqueNames(all) && i < |Cases(all, requested)|
    ensures requested != [] ==> Cases(all, requested) == Restricted(all, set n | n in requested)
    ensures FirstNamed(all, Cases(all, requested)[i].name) == Some(Cases(all, requested)[i])
  {
    if requested == [] {
      NamedIsItself(all, i);
    } else {
      SelectedIsRestricted(all, set n | n in requested);
      var j := RestrictedFrom(all, (set n | n in requested), i);
      NamedIsItself(all, j);
    }
  }

  lemma {:induction false} RestrictedFrom(all: seq<TestCase>, want: set<string>, i: nat) returns (j: nat)
    requires i < |Restricted(all, want)|
    ensures j < |all| && all[j] == Restricted(all, want)[i]
  {
    if all[0].name in want && i == 0 {
      j := 0;
    } else {
      var k := RestrictedFrom(all[1..], want, if all[0].name in want then i - 1 else i);
      j := k + 1;
    }
  }

  // ---------------------------------------------------------------------------------------------
  // The list flags

  /** What is left of the parts of a list once trimmed. */
  function Cleaned(parts: seq<string>): seq<string> {
    if parts == [] then []
    else (if Trim(parts[0]) != "" then [Trim(parts[0])] else []) + Cleaned(parts[1..])
  }

  /** In order, each part that is not blank, trimmed, and nothing else. */
  lemma {:induction false} CleanedInOrder(a: seq<string>, b: seq<string>, part: string)
    ensures Cleaned(a + b) == Cleaned(a) + Cleaned(b)
    ensures Cleaned([part]) == if Trim(part) == "" then [] else [Trim(part)]
  {
    if a == [] {
      assert a + b == b;
    } else {
      assert (a + b)[0] == a[0] && (a + b)[1..] == a[1..] + b;
      CleanedInOrder(a[1..], b, part);
    }
  }

  lemma CleanedStep(out: seq<string>, parts: seq<string>, i: nat)
    requires i < |parts|
    ensures out + Cleaned(parts[i..]) ==
              (if Trim(parts[i]) != "" then out + [Trim(parts[i])] else out) + Cleaned(parts[i + 1..])
  {
  }

  method ParseList(s: string) returns (out: seq<string>)
    ensures out == if s == "" then [] else Cleaned(Split(s, ','))
  {
    out := [];
    if s == "" {
      return;
    }
    var parts := Split(s, ',');
    for i := 0 to |parts|
      invariant Cleaned(parts) == out + Cleaned(parts[i..])
    {
      CleanedStep(out, parts, i);
      var a := Trim(parts[i]);
      if a != "" {
        out := out + [a];
      }
    }
    assert Cleaned(parts[|parts|..]) == [];
  }

  /** Any list of names without commas or outer white space survives being written and parsed. */
  lemma ListRoundTrip(names: seq<string>)
    requires names != []
    requires forall n | n in names :: n != "" && Trimmed(n) && ',' !in n
    ensures JoinWith(names, ',') != "" && Cleaned(Split(JoinWith(names, ','), ',')) == names
  {
    SplitInvertsJoin(JoinWith(names, ','), names, ',');
    assert names[0] in names;
    CleanedKeeps(names);
  }

  lemma {:induction false} CleanedKeeps(names: seq<string>)
    requires forall n | n in names :: n != "" && Trimmed(n)
    ensures Cleaned(names) == names
  {
    if names != [] {
      assert names[0] in names;
      TrimOfTrimmed(names[0]);
      assert forall n | n in names[1..] :: n in names;
      CleanedKeeps(names[1..]);
    }
  }
}
