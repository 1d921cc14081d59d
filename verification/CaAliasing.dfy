/** Which positions of a CA's key list another CA can still overwrite, and so which keys can be lost. */
module CaAliasing {
  import opened Wrappers
  import opened CaForest

  ghost predicate InList(f: Forest, c: nat, i: nat) {
    c < |f.cas| && SliceInv(f, f.cas[c].jwtKeys) && i < f.cas[c].jwtKeys.len
  }

  /** The run puts another key at this position of the list. */
  ghost predicate Overwrites(f: Forest, c: nat, i: nat, acts: seq<Action>)
    requires InList(f, c, i)
  {
    && Run(f, acts).Some? && InList(Run(f, acts).value, c, i)
    && Keys(Run(f, acts).value, c)[i] != Keys(f, c)[i]
  }

  /** CA `d` appends to the same array, and has not got past the position yet. */
  predicate Behind(f: Forest, c: nat, i: nat, d: nat)
    requires c < |f.cas|
  {
    d < |f.cas| && f.cas[d].jwtKeys.arr == f.cas[c].jwtKeys.arr && f.cas[d].jwtKeys.len <= i
  }

  ghost predicate NoneBehind(f: Forest, c: nat, i: nat)
    requires c < |f.cas|
  {
    forall d | 0 <= d < |f.cas| :: !Behind(f, c, i, d)
  }

  lemma NoneBehindStep(f: Forest, c: nat, i: nat, a: Action)
    requires HeapInv(f) && InList(f, c, i) && NoneBehind(f, c, i) && Can(f, a)
    ensures HeapInv(Do(f, a)) && InList(Do(f, a), c, i) && NoneBehind(Do(f, a), c, i)
    ensures Keys(Do(f, a), c)[i] == Keys(f, c)[i]
  {
    HeapStep(f, a);
    if a.AddJWTKey? {
      AppendEffect(f, a.to, a.grow, c);
      assert !Behind(f, c, i, a.to);
    }
    var f' := Do(f, a);
    forall d | 0 <= d < |f'.cas| ensures !Behind(f', c, i, d) {
      if d < |f.cas| {
        assert !Behind(f, c, i, d);
      } else if a.NewIntermediate? {
        assert !Behind(f, c, i, a.of);
      }
    }
  }

  lemma {:induction false} NoneBehindIsSafe(f: Forest, c: nat, i: nat, acts: seq<Action>)
    requires HeapInv(f) && InList(f, c, i) && NoneBehind(f, c, i) && Run(f, acts).Some?
    ensures InList(Run(f, acts).value, c, i)
    ensures Keys(Run(f, acts).value, c)[i] == Keys(f, c)[i]
    decreases |acts|
  {
    if |acts| > 0 {
      NoneBehindStep(f, c, i, acts[0]);
      NoneBehindIsSafe(Do(f, acts[0]), c, i, acts[1..]);
    }
  }

  /** The CA behind catches up, append by append, and overwrites the position. */
  lemma {:induction false} BehindOverwrites(f: Forest, c: nat, i: nat, d: nat) returns (acts: seq<Action>)
    requires HeapInv(f) && InList(f, c, i) && Behind(f, c, i, d)
    ensures Overwrites(f, c, i, acts)
    ensures HeapInv(Run(f, acts).value)
    decreases i - f.cas[d].jwtKeys.len
  {
    var n := f.cas[d].jwtKeys.len;
    var a := AddJWTKey(d, n + 1);
    assert SliceInv(f, f.cas[d].jwtKeys) && SliceInv(f, f.cas[c].jwtKeys);
    AppendEffect(f, d, n + 1, c);
    var f1 := Do(f, a);
    if n == i {
      acts := [a];
      assert Run(f1, acts[1..]) == Some(f1);
      assert Keys(f, c)[i] < f.nextKey == Keys(f1, c)[i];
    } else {
      var rest := BehindOverwrites(f1, c, i, d);
      acts := [a] + rest;
      assert acts[1..] == rest;
    }
  }

  /**
   The exact extent of what can be lost. A position of a CA's key list can still come to hold another
   key if and only if some CA on the same backing array has a list that ends at or before it.
   */
  lemma PositionCanChange(before: seq<Action>, f: Forest, c: nat, i: nat)
    requires Run(Start(), before) == Some(f) && InList(f, c, i)
    ensures (exists acts :: Overwrites(f, c, i, acts)) <==> (exists d :: Behind(f, c, i, d))
  {
    ReachableHeap(before, f);
    if d :| Behind(f, c, i, d) {
      var acts := BehindOverwrites(f, c, i, d);
    } else {
      forall acts | Run(f, acts).Some? ensures !Overwrites(f, c, i, acts) {
        NoneBehindIsSafe(f, c, i, acts);
      }
    }
  }

  /** The key stands at one position of whatever array it stands in. */
  ghost predicate OnlyAt(f: Forest, k: Key, i: nat) {
    forall a, j | 0 <= a < |f.heap| && 0 <= j < |f.heap[a]| && f.heap[a][j] == k :: j == i
  }

  lemma OnlyAtStep(f: Forest, k: Key, i: nat, a: Action)
    requires HeapInv(f) && 0 < k < f.nextKey && OnlyAt(f, k, i) && Can(f, a)
    ensures OnlyAt(Do(f, a), k, i) && f.nextKey <= Do(f, a).nextKey
  {
    var f' := Do(f, a);
    forall b, j | 0 <= b < |f'.heap| && 0 <= j < |f'.heap[b]| && f'.heap[b][j] == k ensures j == i {
      if a.AddJWTKey? && b == |f.heap| {
        var s := f.cas[a.to].jwtKeys;
        assert j < s.len ==> f'.heap[b][j] == f.heap[s.arr][j];
      } else if b < |f.heap| {
        assert f.heap[b][j] == k;
      }
    }
  }

  lemma {:induction false} OnlyAtRun(f: Forest, k: Key, i: nat, acts: seq<Action>)
    requires HeapInv(f) && 0 < k < f.nextKey && OnlyAt(f, k, i) && Run(f, acts).Some?
    ensures HeapInv(Run(f, acts).value) && OnlyAt(Run(f, acts).value, k, i)
    decreases |acts|
  {
    if |acts| > 0 {
      HeapStep(f, acts[0]);
      OnlyAtStep(f, k, i, acts[0]);
      OnlyAtRun(Do(f, acts[0]), k, i, acts[1..]);
    }
  }

  /** After the run, the CA does not publish the key. */
  ghost predicate Loses(f: Forest, c: nat, k: Key, acts: seq<Action>) {
    && Run(f, acts).Some? && c < |Run(f, acts).value.cas|
    && SliceInv(Run(f, acts).value, Run(f, acts).value.cas[c].jwtKeys)
    && k !in Keys(Run(f, acts).value, c)
  }

  /** What a caller can see before AddJWTKey: the array has room, and a CA that shares it is no longer. */
  ghost predicate AtRisk(f: Forest, c: nat)
    requires c < |f.cas| && SliceInv(f, f.cas[c].jwtKeys)
  {
    && f.cas[c].jwtKeys.len < |f.heap[f.cas[c].jwtKeys.arr]|
    && exists d :: d != c && Behind(f, c, f.cas[c].jwtKeys.len, d)
  }

  /**
   AddJWTKey adds a key to the CA's JWKS; that it stays there, as promised, holds if and only if the
   CA was not at risk before the call.
   */
  lemma AddedKeyStaysIff(before: seq<Action>, f: Forest, c: nat, grow: nat)
    requires Run(Start(), before) == Some(f) && Can(f, AddJWTKey(c, grow))
    ensures SliceInv(f, f.cas[c].jwtKeys)
    ensures (exists acts :: Loses(Do(f, AddJWTKey(c, grow)), c, f.nextKey, acts)) <==> AtRisk(f, c)
  {
    ReachableHeap(before, f);
    var f1, i, k := Do(f, AddJWTKey(c, grow)), f.cas[c].jwtKeys.len, f.nextKey;
    AppendEffect(f, c, grow, c);
    assert Keys(f1, c)[i] == k;
    RiskIsBehind(f, c, grow);
    if AtRisk(f, c) {
      var d :| Behind(f1, c, i, d);
      var acts := BehindOverwrites(f1, c, i, d);
      AddedOnlyAt(f, c, grow);
      OnlyAtRun(f1, k, i, acts);
      assert Loses(f1, c, k, acts);
    } else {
      forall acts | Run(f1, acts).Some? ensures !Loses(f1, c, k, acts) {
        NoneBehindIsSafe(f1, c, i, acts);
        assert Keys(Run(f1, acts).value, c)[i] == k;
      }
    }
  }

  lemma AddedOnlyAt(f: Forest, c: nat, grow: nat)
    requires HeapInv(f) && Can(f, AddJWTKey(c, grow))
    ensures OnlyAt(Do(f, AddJWTKey(c, grow)), f.nextKey, f.cas[c].jwtKeys.len)
  {
  }

  lemma RiskIsBehind(f: Forest, c: nat, grow: nat)
    requires HeapInv(f) && Can(f, AddJWTKey(c, grow))
    ensures var f1, i := Do(f, AddJWTKey(c, grow)), f.cas[c].jwtKeys.len;
            AtRisk(f, c) <==> exists d :: Behind(f1, c, i, d)
  {
    var f1, i := Do(f, AddJWTKey(c, grow)), f.cas[c].jwtKeys.len;
    forall d: nat ensures Behind(f1, c, i, d) <==>
        d != c && Behind(f, c, i, d) && i < |f.heap[f.cas[c].jwtKeys.arr]|
    {
      if d < |f.cas| {
        assert SliceInv(f, f.cas[d].jwtKeys);
      }
    }
  }
}
