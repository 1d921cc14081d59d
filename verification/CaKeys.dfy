/** The JWT keys of one CA as the source holds them: a window on a backing array others may share. */
module CaKeys {
  import opened Wrappers
  import opened CaForest

  class IssuingCA {
    var backing: array<Key>
    var len: nat

    ghost predicate Valid()
      reads this
    {
      0 < len <= backing.Length
    }

    ghost function JWTKeys(): seq<Key>
      requires Valid()
      reads this, backing
    {
      backing[..len]
    }

    constructor (first: Key, grow: nat)
      requires 0 < grow
      ensures Valid() && fresh(backing) && JWTKeys() == [first]
      ensures backing[..] == Reallocated([], 0, first, grow)
    {
      var a := new Key[grow](_ => 0);
      a[0] := first;
      backing, len := a, 1;
    }

    /** Copies the slice header: the same backing array. */
    constructor Intermediate(parent: IssuingCA)
      requires parent.Valid()
      ensures Valid() && backing == parent.backing && len == parent.len
    {
      backing, len := parent.backing, parent.len;
    }

    /** `append`: in place while there is room, otherwise into a new array. */
    method AddJWTKey(k: Key, grow: nat)
      requires Valid() && len < grow
      modifies this, backing
      ensures Valid() && JWTKeys() == old(JWTKeys()) + [k]
      ensures old(len) < old(backing.Length) ==>
                backing == old(backing) && backing[..] == old(backing[..])[old(len) := k]
      ensures old(len) == old(backing.Length) ==>
                && fresh(backing) && old(backing)[..] == old(backing[..])
                && backing[..] == Reallocated(old(backing[..]), old(len), k, grow)
    {
      if len < backing.Length {
        backing[len] := k;
      } else {
        var a := new Key[grow](_ => 0);
        for i := 0 to len
          invariant forall j | 0 <= j < i :: a[j] == backing[j]
          invariant forall j | i <= j < grow :: a[j] == 0
          invariant backing == old(backing) && backing[..] == old(backing[..])
          modifies a
        {
          a[i] := backing[i];
        }
        a[len] := k;
        backing := a;
      }
      len := len + 1;
    }
  }

  ghost predicate Distinct<T>(s: seq<T>) {
    forall i, j | 0 <= i < j < |s| :: s[i] != s[j]
  }

  /** Array `a` holds `heap[a]`, and CA `c` is a window on the array of its slice. */
  ghost predicate Depicts(cas: seq<IssuingCA>, arrays: seq<array<Key>>, f: Forest)
    reads cas, arrays
  {
    && |cas| == |f.cas| && |arrays| == |f.heap| && Distinct(cas) && Distinct(arrays)
    && (forall a | 0 <= a < |arrays| :: arrays[a][..] == f.heap[a])
    && (forall c | 0 <= c < |cas| ::
          && f.cas[c].jwtKeys.arr < |arrays| && cas[c].backing == arrays[f.cas[c].jwtKeys.arr]
          && cas[c].len == f.cas[c].jwtKeys.len)
  }

  /** All CAs of a test, as objects. Whatever is done with them is a run of the forest. */
  class Authorities {
    var cas: seq<IssuingCA>
    var nextKey: Key
    ghost var arrays: seq<array<Key>>
    ghost var forest: Forest
    ghost var trace: seq<Action>

    ghost predicate Valid()
      reads this, cas, arrays
    {
      Run(Start(), trace) == Some(forest) && HeapInv(forest) && nextKey == forest.nextKey && Depicts(cas, arrays, forest)
    }

    constructor ()
      ensures Valid() && trace == []
    {
      cas, nextKey, arrays, forest, trace := [], 1, [], Start(), [];
    }

    method New(grow: nat)
      requires Valid() && Can(forest, Action.New(grow))
      modifies this
      ensures Valid() && trace == old(trace) + [Action.New(grow)] && forest == Do(old(forest), Action.New(grow))
    {
      var ca := new IssuingCA(nextKey + 1, grow);
      cas, nextKey := cas + [ca], nextKey + 2;
      arrays := arrays + [ca.backing];
      Take(Action.New(grow));
    }

    method NewIntermediate(p: nat)
      requires Valid() && Can(forest, Action.NewIntermediate(p))
      modifies this
      ensures Valid() && trace == old(trace) + [Action.NewIntermediate(p)]
      ensures forest == Do(old(forest), Action.NewIntermediate(p))
    {
      SlicesFit(p);
      var ca := new IssuingCA.Intermediate(cas[p]);
      cas, nextKey := cas + [ca], nextKey + 1;
      Take(Action.NewIntermediate(p));
    }

    method AddJWTKey(c: nat, grow: nat)
      requires Valid() && Can(forest, Action.AddJWTKey(c, grow)) && c < |cas|
      modifies this, cas[c], cas[c].backing
      ensures Valid() && trace == old(trace) + [Action.AddJWTKey(c, grow)]
      ensures forest == Do(old(forest), Action.AddJWTKey(c, grow))
    {
      SlicesFit(c);
      var ca := cas[c];
      ghost var inPlace := ca.len < ca.backing.Length;
      ca.AddJWTKey(nextKey, grow);
      nextKey := nextKey + 1;
      if !inPlace {
        arrays := arrays + [ca.backing];
      }
      Take(Action.AddJWTKey(c, grow));
    }

    ghost method Take(a: Action)
      requires Run(Start(), trace) == Some(forest) && HeapInv(forest) && Can(forest, a)
      modifies this`forest, this`trace
      ensures forest == Do(old(forest), a) && trace == old(trace) + [a]
      ensures Run(Start(), trace) == Some(forest) && HeapInv(forest)
    {
      RunAppend(Start(), trace, a);
      HeapStep(forest, a);
      forest, trace := Do(forest, a), trace + [a];
    }

    /** So what the forest says of its key lists holds of the objects: JWTKeys is Keys. */
    lemma SlicesFit(c: nat)
      requires Valid() && c < |cas|
      ensures cas[c].Valid() && cas[c].backing[..] == forest.heap[forest.cas[c].jwtKeys.arr]
      ensures cas[c].JWTKeys() == Keys(forest, c)
    {
      assert SliceInv(forest, forest.cas[c].jwtKeys);
      var a := forest.cas[c].jwtKeys.arr;
      assert arrays[a][..] == forest.heap[a];
      assert cas[c].backing[..][..cas[c].len] == cas[c].backing[..cas[c].len];
    }

    /** For one: all CAs of a tree, as objects, sign with the same default key. */
    lemma DefaultKeyIsShared(c: nat, d: nat)
      requires Valid() && c < |cas| && d < |cas| && forest.cas[c].tree == forest.cas[d].tree
      ensures cas[c].Valid() && cas[d].Valid() && cas[c].JWTKeys()[0] == cas[d].JWTKeys()[0]
    {
      SlicesFit(c);
      SlicesFit(d);
      ReachableSharesFirst(Start(), trace);
    }
  }

  lemma {:induction false} RunAppend(f: Forest, acts: seq<Action>, a: Action)
    requires Run(f, acts).Some? && Can(Run(f, acts).value, a)
    ensures Run(f, acts + [a]) == Some(Do(Run(f, acts).value, a))
    decreases |acts|
  {
    if |acts| == 0 {
      assert acts + [a] == [a];
      assert Run(Do(f, a), [a][1..]) == Some(Do(f, a));
    } else {
      assert (acts + [a])[0] == acts[0] && (acts + [a])[1..] == acts[1..] + [a];
      RunAppend(Do(f, acts[0]), acts[1..], a);
    }
  }
}
