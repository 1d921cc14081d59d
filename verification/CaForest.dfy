/**
 The certificate authorities a test creates: any number of trees, each grown from a root by
 `NewIntermediate`. JWT key lists are Go slices, a backing array and a length; `NewIntermediate`
 copies the slice header and `append` writes in place while the array has room.
 */
module CaForest {
  import opened Wrappers

  /** Keys are numbers drawn from a counter; 0 fills unused slots of a backing array. */
  type Key = nat

  datatype Slice = Slice(arr: nat, len: nat)

  datatype Cert = Cert(subject: Key, signer: Key, isCA: bool)

  /** `parent` and `depth` are history variables; a root is its own parent. */
  datatype CA = CA(tree: nat, cert: Cert, root: Cert, intermediates: seq<Cert>, jwtKeys: Slice, parent: nat, depth: nat)

  datatype Forest = Forest(heap: seq<seq<Key>>, cas: seq<CA>, nextTree: nat, nextKey: Key)

  /** `grow` is the capacity the runtime chooses when it has to reallocate. */
  datatype Action = New(grow: nat) | NewIntermediate(of: nat) | AddJWTKey(to: nat, grow: nat) | Issue(issuer: nat)

  function Start(): Forest {
    Forest([], [], 0, 1)
  }

  function Zeros(n: nat): seq<Key> {
    seq(n, _ => 0)
  }

  /** A new backing array holding the old elements and the new one. */
  function Reallocated(backing: seq<Key>, len: nat, k: Key, grow: nat): (r: seq<Key>)
    requires len <= |backing| && len < grow
    ensures |r| == grow && r[..len] == backing[..len] && r[len] == k
  {
    backing[..len] + [k] + Zeros(grow - len - 1)
  }

  predicate Can(f: Forest, a: Action) {
    match a
    case New(grow) => 0 < grow
    case NewIntermediate(c) => c < |f.cas|
    case AddJWTKey(c, grow) =>
      && c < |f.cas| && f.cas[c].jwtKeys.arr < |f.heap| && f.cas[c].jwtKeys.len < grow
      && f.cas[c].jwtKeys.len <= |f.heap[f.cas[c].jwtKeys.arr]|
    case Issue(c) => c < |f.cas|
  }

  function Do(f: Forest, a: Action): Forest
    requires Can(f, a)
  {
    match a
    case New(grow) =>
      var root := Cert(f.nextKey, f.nextKey, true);
      var ca := CA(f.nextTree, root, root, [], Slice(|f.heap|, 1), |f.cas|, 0);
      Forest(f.heap + [Reallocated([], 0, f.nextKey + 1, grow)], f.cas + [ca], f.nextTree + 1, f.nextKey + 2)
    case NewIntermediate(p) =>
      var c := f.cas[p];
      var cert := Cert(f.nextKey, c.cert.subject, true);
      var ca := CA(c.tree, cert, c.root, [cert] + c.intermediates, c.jwtKeys, p, c.depth + 1);
      f.(cas := f.cas + [ca], nextKey := f.nextKey + 1)
    case AddJWTKey(i, grow) =>
      var s := f.cas[i].jwtKeys;
      var backing := f.heap[s.arr];
      if s.len < |backing| then
        Forest(f.heap[s.arr := backing[s.len := f.nextKey]],
               f.cas[i := f.cas[i].(jwtKeys := Slice(s.arr, s.len + 1))], f.nextTree, f.nextKey + 1)
      else
        Forest(f.heap + [Reallocated(backing, s.len, f.nextKey, grow)],
               f.cas[i := f.cas[i].(jwtKeys := Slice(|f.heap|, s.len + 1))], f.nextTree, f.nextKey + 1)
    case Issue(_) => f.(nextKey := f.nextKey + 1)
  }

  function Run(f: Forest, acts: seq<Action>): Option<Forest>
    decreases |acts|
  {
    if |acts| == 0 then Some(f)
    else if Can(f, acts[0]) then Run(Do(f, acts[0]), acts[1..])
    else None
  }

  // ---------------------------------------------------------------------------------------------
  // JWT keys

  ghost predicate SliceInv(f: Forest, s: Slice) {
    s.arr < |f.heap| && 0 < s.len <= |f.heap[s.arr]|
  }

  /** Slices are in bounds, and trees share no backing array. */
  ghost predicate HeapInv(f: Forest) {
    && (forall c | 0 <= c < |f.cas| :: SliceInv(f, f.cas[c].jwtKeys) && f.cas[c].tree < f.nextTree)
    && (forall c, d | 0 <= c < |f.cas| && 0 <= d < |f.cas| ::
          f.cas[c].jwtKeys.arr == f.cas[d].jwtKeys.arr ==> f.cas[c].tree == f.cas[d].tree)
    && (forall a, i | 0 <= a < |f.heap| && 0 <= i < |f.heap[a]| :: f.heap[a][i] < f.nextKey)
    && 0 < f.nextKey
  }

  /** The key list of a CA: what JWKSBytes publishes, in order. */
  ghost function Keys(f: Forest, c: nat): seq<Key>
    requires c < |f.cas| && SliceInv(f, f.cas[c].jwtKeys)
  {
    f.heap[f.cas[c].jwtKeys.arr][..f.cas[c].jwtKeys.len]
  }

  ghost predicate BelowAll(f: Forest, tree: nat, i: nat) {
    forall c | 0 <= c < |f.cas| && f.cas[c].tree == tree :: i < f.cas[c].jwtKeys.len
  }

  lemma HeapStep(f: Forest, a: Action)
    requires HeapInv(f) && Can(f, a)
    ensures HeapInv(Do(f, a))
  {
    if a.AddJWTKey? {
      AppendKeepsHeap(f, a.to, a.grow);
    }
  }

  lemma AppendKeepsHeap(f: Forest, c: nat, grow: nat)
    requires HeapInv(f) && Can(f, AddJWTKey(c, grow))
    ensures HeapInv(Do(f, AddJWTKey(c, grow)))
  {
  }

  /**
   The exact extent of aliasing. AddJWTKey on `c` appends to its own list; another CA's list changes
   if and only if it shares the backing array and is longer, and then in one position only.
   */
  lemma AppendEffect(f: Forest, c: nat, grow: nat, d: nat)
    requires HeapInv(f) && Can(f, AddJWTKey(c, grow)) && d < |f.cas|
    ensures HeapInv(Do(f, AddJWTKey(c, grow)))
    ensures var f' := Do(f, AddJWTKey(c, grow));
            && Keys(f', c) == Keys(f, c) + [f.nextKey]
            && (d != c ==> |Keys(f', d)| == |Keys(f, d)|)
            && (d != c ==> (Keys(f', d) != Keys(f, d) <==>
                  f.cas[c].jwtKeys.arr == f.cas[d].jwtKeys.arr && f.cas[c].jwtKeys.len < f.cas[d].jwtKeys.len))
            && (forall i | 0 <= i < |Keys(f, d)| && i != f.cas[c].jwtKeys.len :: Keys(f', d)[i] == Keys(f, d)[i])
  {
    HeapStep(f, AddJWTKey(c, grow));
    var f' := Do(f, AddJWTKey(c, grow));
    var n := f.cas[c].jwtKeys.len;
    if f.cas[c].jwtKeys.arr == f.cas[d].jwtKeys.arr && n < f.cas[d].jwtKeys.len {
      assert Keys(f', d)[n] == f.nextKey && Keys(f, d)[n] < f.nextKey;
    }
  }

  /** One step keeps every position below the shortest list of a tree, and shortens no list. */
  lemma StepKeepsPrefix(f: Forest, a: Action, tree: nat, i: nat)
    requires HeapInv(f) && Can(f, a) && tree < f.nextTree && BelowAll(f, tree, i)
    ensures HeapInv(Do(f, a)) && BelowAll(Do(f, a), tree, i)
    ensures |f.cas| <= |Do(f, a).cas| && f.nextTree <= Do(f, a).nextTree
    ensures forall c | 0 <= c < |f.cas| && f.cas[c].tree == tree ::
              && Do(f, a).cas[c].tree == tree
              && i < |Keys(Do(f, a), c)| && Keys(Do(f, a), c)[i] == Keys(f, c)[i]
  {
    HeapStep(f, a);
    forall c | 0 <= c < |f.cas| && f.cas[c].tree == tree
      ensures Do(f, a).cas[c].tree == tree
      ensures i < |Keys(Do(f, a), c)| && Keys(Do(f, a), c)[i] == Keys(f, c)[i]
    {
      assert SliceInv(f, f.cas[c].jwtKeys);
      if a.AddJWTKey? {
        AppendEffect(f, a.to, a.grow, c);
      }
    }
  }

  /**
   For any interleaving of New, NewIntermediate, AddJWTKey and issuing, the positions of every key
   list below the shortest list of its tree never change.
   */
  lemma {:induction false} PrefixIsFrozen(f: Forest, acts: seq<Action>, tree: nat, i: nat)
    requires HeapInv(f) && Run(f, acts).Some? && tree < f.nextTree && BelowAll(f, tree, i)
    ensures var f' := Run(f, acts).value;
            && HeapInv(f') && BelowAll(f', tree, i)
            && |f.cas| <= |f'.cas|
            && (forall c | 0 <= c < |f.cas| && f.cas[c].tree == tree ::
                  && f'.cas[c].tree == tree
                  && i < |Keys(f', c)| && Keys(f', c)[i] == Keys(f, c)[i])
    decreases |acts|
  {
    if |acts| > 0 {
      StepKeepsPrefix(f, acts[0], tree, i);
      PrefixIsFrozen(Do(f, acts[0]), acts[1..], tree, i);
    }
  }

  /** All lists of a tree start with the same key. */
  ghost predicate SharedFirst(f: Forest) {
    && HeapInv(f)
    && (forall c, d | 0 <= c < |f.cas| && 0 <= d < |f.cas| && f.cas[c].tree == f.cas[d].tree ::
          Keys(f, c)[0] == Keys(f, d)[0])
  }

  lemma SharedFirstStep(f: Forest, a: Action)
    requires SharedFirst(f) && Can(f, a)
    ensures SharedFirst(Do(f, a))
  {
    var f' := Do(f, a);
    HeapStep(f, a);
    forall c | 0 <= c < |f.cas| ensures Keys(f', c)[0] == Keys(f, c)[0] {
      StepKeepsPrefix(f, a, f.cas[c].tree, 0);
    }
    assert a.NewIntermediate? ==> Keys(f', |f.cas|) == Keys(f', a.of);
  }

  lemma {:induction false} ReachableSharesFirst(f: Forest, acts: seq<Action>)
    requires SharedFirst(f) && Run(f, acts).Some?
    ensures SharedFirst(Run(f, acts).value)
    decreases |acts|
  {
    if |acts| > 0 {
      SharedFirstStep(f, acts[0]);
      ReachableSharesFirst(Do(f, acts[0]), acts[1..]);
    }
  }

  /** The key IssueJWT signs with unless told otherwise. */
  ghost function DefaultKey(f: Forest, c: nat): Key
    requires c < |f.cas| && SliceInv(f, f.cas[c].jwtKeys)
  {
    Keys(f, c)[0]
  }

  /**
   A token signed by any CA with its default key stays verifiable: at every later time the key is
   first in the JWKS of every CA of the tree, whichever CAs have been added and whatever was
   appended where.
   */
  lemma DefaultKeyStaysPublished(before: seq<Action>, f: Forest, c: nat, after: seq<Action>, f': Forest, d: nat)
    requires Run(Start(), before) == Some(f) && Run(f, after) == Some(f')
    requires c < |f.cas| && d < |f'.cas| && f'.cas[d].tree == f.cas[c].tree
    ensures SliceInv(f, f.cas[c].jwtKeys) && SliceInv(f', f'.cas[d].jwtKeys)
    ensures Keys(f', d)[0] == DefaultKey(f, c)
  {
    ReachableSharesFirst(Start(), before);
    ReachableSharesFirst(f, after);
    PrefixIsFrozen(f, after, f.cas[c].tree, 0);
    assert Keys(f', d)[0] == Keys(f', c)[0];
  }

  lemma ReachableHeap(acts: seq<Action>, f: Forest)
    requires Run(Start(), acts) == Some(f)
    ensures HeapInv(f)
  {
    ReachableSharesFirst(Start(), acts);
  }

  /**
   Above the shortest list the promise fails: whenever a CA has spare capacity, a key added to it
   can be overwritten through a new intermediate, and vanishes from its own JWKS.
   */
  lemma AddedKeyCanVanish(acts: seq<Action>, f: Forest, c: nat, grow: nat)
    requires Run(Start(), acts) == Some(f) && c < |f.cas|
    requires f.cas[c].jwtKeys.arr < |f.heap| && f.cas[c].jwtKeys.len < |f.heap[f.cas[c].jwtKeys.arr]|
    requires f.cas[c].jwtKeys.len + 1 < grow
    ensures var way := [NewIntermediate(c), AddJWTKey(c, grow), AddJWTKey(|f.cas|, grow)];
            && Run(f, way).Some? && HeapInv(Run(f, way).value)
            && c < |Run(f, way).value.cas|
            && Run(f, way[..2]).Some? && HeapInv(Run(f, way[..2]).value)
            && c < |Run(f, way[..2]).value.cas|
            && exists k :: k in Keys(Run(f, way[..2]).value, c) && k !in Keys(Run(f, way).value, c)
  {
    ReachableHeap(acts, f);
    var way := [NewIntermediate(c), AddJWTKey(c, grow), AddJWTKey(|f.cas|, grow)];
    var f1 := Do(f, way[0]);
    HeapStep(f, way[0]);
    AppendEffect(f1, c, grow, |f.cas|);
    var f2 := Do(f1, way[1]);
    AppendEffect(f2, |f.cas|, grow, c);
    var f3 := Do(f2, way[2]);
    RunTwo(f, way[..2], f1, f2);
    assert way == way[..2] + [way[2]];
    RunTwo(f1, way[1..], f2, f3);
    var k, n := f1.nextKey, f.cas[c].jwtKeys.len;
    assert Keys(f2, c)[n] == k;
    forall i | 0 <= i < |Keys(f3, c)| ensures Keys(f3, c)[i] != k {
      if i != n {
        assert Keys(f3, c)[i] == Keys(f2, c)[i] == Keys(f1, c)[i];
      }
    }
    assert k in Keys(f2, c) && k !in Keys(f3, c);
    assert Run(f, way) == Some(f3);
  }

  lemma RunTwo(f: Forest, acts: seq<Action>, f1: Forest, f2: Forest)
    requires |acts| == 2 && Can(f, acts[0]) && f1 == Do(f, acts[0]) && Can(f1, acts[1]) && f2 == Do(f1, acts[1])
    ensures Run(f, acts) == Some(f2)
  {
    assert acts[1..][0] == acts[1] && acts[1..][1..] == [];
    assert Run(f2, acts[1..][1..]) == Some(f2);
  }

  // ---------------------------------------------------------------------------------------------
  // X.509 chains

  /** Each certificate is signed by the key of the next, and the last by the root's. */
  ghost predicate SignaturePath(path: seq<Cert>, root: Cert) {
    && |path| > 0
    && (forall i | 0 <= i < |path| - 1 :: path[i].signer == path[i + 1].subject)
    && path[|path| - 1].signer == root.subject
  }

  ghost predicate ChainInv(f: Forest, c: nat)
    requires c < |f.cas|
  {
    var ca := f.cas[c];
    && |ca.intermediates| == ca.depth
    && ca.root.signer == ca.root.subject && ca.root.isCA
    && (ca.depth == 0 ==> ca.cert == ca.root)
    && (ca.depth > 0 ==> ca.intermediates[0] == ca.cert && SignaturePath(ca.intermediates, ca.root))
    && (forall i | 0 <= i < |ca.intermediates| :: ca.intermediates[i].isCA && ca.intermediates[i].subject != ca.root.subject)
  }

  /** The certificate is signed by the key of a CA of the same tree. */
  ghost predicate SignedByParent(cas: seq<CA>, c: nat) {
    && c < |cas| && cas[c].parent < |cas|
    && cas[cas[c].parent].tree == cas[c].tree
    && cas[c].cert.signer == cas[cas[c].parent].cert.subject
  }

  ghost predicate Numbered(ca: CA, nextTree: nat, nextKey: Key) {
    ca.tree < nextTree && ca.cert.subject < nextKey && ca.root.subject < nextKey
  }

  /** No two CAs have the same key, and a tree has one root. */
  ghost predicate KeysInv(cas: seq<CA>, nextTree: nat, nextKey: Key) {
    && (forall c | 0 <= c < |cas| :: SignedByParent(cas, c))
    && (forall c | 0 <= c < |cas| :: Numbered(cas[c], nextTree, nextKey))
    && (forall c, d | 0 <= c < d < |cas| :: cas[c].cert.subject != cas[d].cert.subject)
    && (forall c, d | 0 <= c < d < |cas| && cas[c].tree == cas[d].tree :: cas[c].root == cas[d].root)
  }

  ghost predicate CertInv(f: Forest) {
    && KeysInv(f.cas, f.nextTree, f.nextKey)
    && (forall c | 0 <= c < |f.cas| :: ChainInv(f, c))
  }

  /** A CA with a fresh key, signed by itself or by an earlier CA of its tree. */
  lemma KeysExtend(cas: seq<CA>, ca: CA, nextTree: nat, nextKey: Key, nextTree': nat, nextKey': Key)
    requires KeysInv(cas, nextTree, nextKey) && nextTree <= nextTree' && nextKey < nextKey'
    requires ca.cert.subject == nextKey && Numbered(ca, nextTree', nextKey')
    requires SignedByParent(cas + [ca], |cas|)
    requires forall c | 0 <= c < |cas| && cas[c].tree == ca.tree :: cas[c].root == ca.root
    ensures KeysInv(cas + [ca], nextTree', nextKey')
  {
    var cas' := cas + [ca];
    forall c | 0 <= c < |cas'| ensures SignedByParent(cas', c) {
      if c < |cas| {
        assert SignedByParent(cas, c);
      }
    }
  }

  lemma KeysUpdate(cas: seq<CA>, i: nat, keys: Slice, nextTree: nat, nextKey: Key)
    requires KeysInv(cas, nextTree, nextKey) && i < |cas|
    ensures KeysInv(cas[i := cas[i].(jwtKeys := keys)], nextTree, nextKey + 1)
  {
    var cas' := cas[i := cas[i].(jwtKeys := keys)];
    forall c | 0 <= c < |cas'| ensures SignedByParent(cas', c) {
      assert SignedByParent(cas, c);
    }
  }

  lemma SameTreeSameRoot(f: Forest, p: nat, c: nat)
    requires CertInv(f) && p < |f.cas| && c < |f.cas| && f.cas[p].tree == f.cas[c].tree
    ensures f.cas[p].root == f.cas[c].root
  {
  }

  lemma CertStep(f: Forest, a: Action)
    requires CertInv(f) && Can(f, a)
    ensures CertInv(Do(f, a))
  {
    var f' := Do(f, a);
    match a {
      case New(_) =>
        KeysExtend(f.cas, f'.cas[|f.cas|], f.nextTree, f.nextKey, f'.nextTree, f'.nextKey);
      case NewIntermediate(p) =>
        forall c | 0 <= c < |f.cas| && f.cas[c].tree == f.cas[p].tree ensures f.cas[c].root == f.cas[p].root {
          SameTreeSameRoot(f, p, c);
        }
        KeysExtend(f.cas, f'.cas[|f.cas|], f.nextTree, f.nextKey, f'.nextTree, f'.nextKey);
      case AddJWTKey(i, _) =>
        KeysUpdate(f.cas, i, f'.cas[i].jwtKeys, f.nextTree, f.nextKey);
      case Issue(_) =>
    }
    forall c | 0 <= c < |f'.cas| ensures ChainInv(f', c) {
      if c < |f.cas| {
        assert ChainInv(f, c);
      } else if a.NewIntermediate? {
        IntermediateChain(f, a.of);
      }
    }
  }

  lemma IntermediateChain(f: Forest, p: nat)
    requires CertInv(f) && p < |f.cas|
    ensures ChainInv(Do(f, NewIntermediate(p)), |f.cas|)
  {
    assert ChainInv(f, p);
    assert Numbered(f.cas[p], f.nextTree, f.nextKey);
    var ca := Do(f, NewIntermediate(p)).cas[|f.cas|];
    forall i | 0 <= i < |ca.intermediates| - 1
      ensures ca.intermediates[i].signer == ca.intermediates[i + 1].subject
    {
      if i > 0 {
        assert ca.intermediates[i] == f.cas[p].intermediates[i - 1];
      }
    }
  }

  lemma {:induction false} CertRun(f: Forest, acts: seq<Action>)
    requires CertInv(f) && Run(f, acts).Some?
    ensures CertInv(Run(f, acts).value)
    decreases |acts|
  {
    if |acts| > 0 {
      CertStep(f, acts[0]);
      CertRun(Do(f, acts[0]), acts[1..]);
    }
  }

  /** The leaf IssueX509SVID makes; its key is fresh. */
  function Leaf(f: Forest, c: nat, isCA: bool): Cert
    requires c < |f.cas|
  {
    Cert(f.nextKey, f.cas[c].cert.subject, isCA)
  }

  /** CertChainDER: what is presented, without the root. */
  function Presented(f: Forest, c: nat, isCA: bool): seq<Cert>
    requires c < |f.cas|
  {
    [Leaf(f, c, isCA)] + f.cas[c].intermediates
  }

  /**
   At any depth, what is presented is a signature path from the leaf to the tree's root: one
   certificate longer than the CA is deep, every certificate after the leaf a CA, the root left out.
   */
  lemma PresentedChainIsValid(acts: seq<Action>, f: Forest, c: nat, isCA: bool)
    requires Run(Start(), acts) == Some(f) && c < |f.cas|
    ensures var path := Presented(f, c, isCA);
            && SignaturePath(path, f.cas[c].root)
            && |path| == f.cas[c].depth + 1
            && (forall i | 1 <= i < |path| :: path[i].isCA)
            && f.cas[c].root !in path
            && path[0].isCA == isCA && path[0].signer == f.cas[c].cert.subject
            && (forall d | 0 <= d < |f.cas| :: path[0].subject != f.cas[d].cert.subject)
  {
    CertRun(Start(), acts);
    assert ChainInv(f, c);
    assert forall d | 0 <= d < |f.cas| :: Numbered(f.cas[d], f.nextTree, f.nextKey);
    var path := Presented(f, c, isCA);
    forall i | 0 <= i < |path| - 1 ensures path[i].signer == path[i + 1].subject {
      if i > 0 {
        assert path[i] == f.cas[c].intermediates[i - 1];
      }
    }
  }

  /** Once issued, the leaf's key is never that of a CA, nor of a later leaf. */
  lemma {:induction false} LeafKeyStaysFresh(f: Forest, k: Key, acts: seq<Action>)
    requires CertInv(f) && k < f.nextKey && Run(f, acts).Some?
    requires forall d | 0 <= d < |f.cas| :: f.cas[d].cert.subject != k
    ensures k < Run(f, acts).value.nextKey
    ensures forall d | 0 <= d < |Run(f, acts).value.cas| :: Run(f, acts).value.cas[d].cert.subject != k
    decreases |acts|
  {
    if |acts| > 0 {
      CertStep(f, acts[0]);
      LeafKeyStaysFresh(Do(f, acts[0]), k, acts[1..]);
    }
  }

  lemma IssuedKeyIsUnique(before: seq<Action>, f: Forest, c: nat, isCA: bool, after: seq<Action>, f': Forest, d: nat, isCA': bool)
    requires Run(Start(), before) == Some(f) && c < |f.cas|
    requires Run(Do(f, Issue(c)), after) == Some(f') && d < |f'.cas|
    ensures Leaf(f, c, isCA).subject != Leaf(f', d, isCA').subject
    ensures Leaf(f, c, isCA).subject != f'.cas[d].cert.subject
  {
    CertRun(Start(), before);
    CertStep(f, Issue(c));
    assert forall e | 0 <= e < |f.cas| :: Numbered(f.cas[e], f.nextTree, f.nextKey);
    LeafKeyStaysFresh(Do(f, Issue(c)), f.nextKey, after);
  }

  /** The certificates after the leaf are CA certificates of the forest, in any selection and order. */
  ghost predicate FromForest(f: Forest, path: seq<Cert>) {
    forall i | 1 <= i < |path| :: exists c :: 0 <= c < |f.cas| && f.cas[c].cert == path[i]
  }

  /**
   No leaf verifies to a root of another tree, now or later: any signature path from it through
   certificates of any CAs at all ends at the root of the CA that issued it.
   */
  lemma NoOtherRoot(acts: seq<Action>, f: Forest, c: nat, path: seq<Cert>, r: nat)
    requires Run(Start(), acts) == Some(f) && c < |f.cas| && r < |f.cas|
    requires SignaturePath(path, f.cas[r].root) && FromForest(f, path)
    requires path[0].signer == f.cas[c].cert.subject
    ensures f.cas[r].root == f.cas[c].root
  {
    CertRun(Start(), acts);
    var p := SignerInTree(f, f.cas[c].tree, path, |path| - 1, c);
    assert ChainInv(f, r);
    RootIsACa(acts, f, r);
    var q :| 0 <= q < |f.cas| && f.cas[q].cert == f.cas[r].root && f.cas[q].tree == f.cas[r].tree;
    assert p == q;
  }

  /** Along a path, every signer is a CA of the leaf's tree. */
  lemma {:induction false} SignerInTree(f: Forest, tree: nat, path: seq<Cert>, i: nat, c: nat) returns (p: nat)
    requires CertInv(f) && i < |path| && c < |f.cas| && f.cas[c].tree == tree
    requires path[0].signer == f.cas[c].cert.subject && FromForest(f, path)
    requires forall j | 0 <= j < |path| - 1 :: path[j].signer == path[j + 1].subject
    ensures p < |f.cas| && f.cas[p].tree == tree && path[i].signer == f.cas[p].cert.subject
  {
    if i == 0 {
      p := c;
    } else {
      var q := SignerInTree(f, tree, path, i - 1, c);
      var d :| 0 <= d < |f.cas| && f.cas[d].cert == path[i];
      assert path[i - 1].signer == path[i].subject;
      assert d == q;
      assert SignedByParent(f.cas, d);
      p := f.cas[d].parent;
    }
  }

  ghost predicate HasRoot(f: Forest, r: nat)
    requires r < |f.cas|
  {
    exists q :: 0 <= q < |f.cas| && f.cas[q].cert == f.cas[r].root && f.cas[q].tree == f.cas[r].tree
  }

  lemma {:induction false} RootsPresent(f: Forest, acts: seq<Action>)
    requires Run(f, acts).Some? && forall r | 0 <= r < |f.cas| :: HasRoot(f, r)
    ensures forall r | 0 <= r < |Run(f, acts).value.cas| :: HasRoot(Run(f, acts).value, r)
    decreases |acts|
  {
    if |acts| > 0 {
      var f' := Do(f, acts[0]);
      forall r | 0 <= r < |f'.cas| ensures HasRoot(f', r) {
        var r0 := if r < |f.cas| then r else if acts[0].NewIntermediate? then acts[0].of else r;
        if r0 < |f.cas| {
          assert HasRoot(f, r0);
          var q :| 0 <= q < |f.cas| && f.cas[q].cert == f.cas[r0].root && f.cas[q].tree == f.cas[r0].tree;
          assert f'.cas[q].cert == f'.cas[r].root && f'.cas[q].tree == f'.cas[r].tree;
        } else {
          assert f'.cas[r].cert == f'.cas[r].root;
        }
      }
      RootsPresent(f', acts[1..]);
    }
  }

  lemma RootIsACa(acts: seq<Action>, f: Forest, r: nat)
    requires Run(Start(), acts) == Some(f) && r < |f.cas|
    ensures HasRoot(f, r)
  {
    RootsPresent(Start(), acts);
  }
}
