/** First-seen de-duplication of a sequence of names, skipping empty names:
    the shape of the tag list the accessor layer builds. */
module Dedup {

  /** No element of `s` occurs twice. */
  predicate NoDuplicates<T(==)>(s: seq<T>) {
    forall i, j :: 0 <= i < j < |s| ==> s[i] != s[j]
  }

  /** The position of the first occurrence of `x` in `s`. */
  function FirstIndex<T(==)>(s: seq<T>, x: T): (k: nat)
    requires x in s
    ensures k < |s| && s[k] == x
    ensures forall j :: 0 <= j < k ==> s[j] != x
  {
    if s[0] == x then 0 else 1 + FirstIndex(s[1..], x)
  }

  /** Each non-empty name of `names` once, in the order it is first met: a left
      fold that appends a name unless it is empty or already collected. */
  function FirstSeen(names: seq<string>): (r: seq<string>)
    ensures NoDuplicates(r)
    ensures forall t :: t in r <==> t != "" && t in names
  {
    if |names| == 0 then []
    else
      var prior := FirstSeen(names[..|names| - 1]);
      var t := names[|names| - 1];
      assert forall u :: u in names <==> u in names[..|names| - 1] || u == t;
      if t == "" || t in prior then prior else prior + [t]
  }

  /** Appending an element does not move the first occurrence of one already present. */
  lemma FirstIndexExtend<T>(s: seq<T>, y: T, x: T)
    requires x in s
    ensures FirstIndex(s + [y], x) == FirstIndex(s, x)
  {
    var k0 := FirstIndex(s, x);
    var k1 := FirstIndex(s + [y], x);
    assert (s + [y])[k0] == x;
    assert forall j :: 0 <= j < |s| ==> (s + [y])[j] == s[j];
  }

  /** Every element of `r` occurs in `names`, and the elements of `r` are ordered
      by the position of their first occurrence there. */
  predicate OrderedByFirstIndex<T(==)>(names: seq<T>, r: seq<T>) {
    && (forall t :: t in r ==> t in names)
    && (forall i, j :: 0 <= i < j < |r| ==> FirstIndex(names, r[i]) < FirstIndex(names, r[j]))
  }

  /** The collected names appear in the order of their first occurrence among
      the inputs. */
  lemma {:induction false} FirstSeenOrder(names: seq<string>)
    ensures OrderedByFirstIndex(names, FirstSeen(names))
  {
    var r := FirstSeen(names);
    if |names| > 0 {
      var p := names[..|names| - 1];
      var t := names[|names| - 1];
      assert names == p + [t];
      var prior := FirstSeen(p);
      FirstSeenOrder(p);
      forall x | x in prior
        ensures FirstIndex(names, x) == FirstIndex(p, x)
      {
        FirstIndexExtend(p, t, x);
      }
      forall i, j | 0 <= i < j < |r|
        ensures FirstIndex(names, r[i]) < FirstIndex(names, r[j])
      {
        assert r[i] == prior[i] && r[i] in prior;
        if j < |prior| {
          assert r[j] == prior[j] && r[j] in prior;
          assert OrderedByFirstIndex(p, prior);
        } else {
          assert r[j] == t && t !in p;
          assert FirstIndex(names, t) == |p|;
        }
      }
    }
  }

  /** A non-empty sequence contains its first element. */
  lemma HeadIn(s: seq<string>)
    requires |s| > 0
    ensures s[0] in s
  {
  }

  /** In a sequence ordered by first occurrence, the last element occurs last. */
  lemma OrderedLastMax(names: seq<string>, a: seq<string>, t: string)
    requires OrderedByFirstIndex(names, a) && t in a
    ensures FirstIndex(names, t) <= FirstIndex(names, a[|a| - 1])
  {
    var j :| 0 <= j < |a| && a[j] == t;
    if j < |a| - 1 {
      assert FirstIndex(names, a[j]) < FirstIndex(names, a[|a| - 1]);
    }
  }

  /** Dropping the last element keeps a duplicate-free ordered sequence so, and
      removes exactly that element. */
  lemma DropLast(names: seq<string>, a: seq<string>)
    requires NoDuplicates(a) && OrderedByFirstIndex(names, a) && |a| > 0
    ensures var a' := a[..|a| - 1];
            && NoDuplicates(a') && OrderedByFirstIndex(names, a')
            && a == a' + [a[|a| - 1]]
            && forall t :: t in a' <==> t in a && t != a[|a| - 1]
  {
    var a' := a[..|a| - 1];
    assert a == a' + [a[|a| - 1]];
    forall t | t in a'
      ensures t != a[|a| - 1]
    {
      var j :| 0 <= j < |a'| && a'[j] == t;
      assert a[j] == t;
    }
  }

  /** Two duplicate-free sequences with the same elements, both ordered by first
      occurrence in `names`, are the same sequence. */
  lemma {:induction false} OrderedUnique(names: seq<string>, a: seq<string>, b: seq<string>)
    requires NoDuplicates(a) && NoDuplicates(b)
    requires forall t :: t in a <==> t in b
    requires OrderedByFirstIndex(names, a) && OrderedByFirstIndex(names, b)
    ensures a == b
    decreases |a|
  {
    if |a| == 0 {
      if |b| != 0 {
        HeadIn(b);
        assert false;
      }
    } else {
      assert a[0] in b;
      var x := a[|a| - 1];
      var y := b[|b| - 1];
      OrderedLastMax(names, b, x);
      OrderedLastMax(names, a, y);
      assert x == y by {
        assert names[FirstIndex(names, x)] == x;
        assert names[FirstIndex(names, y)] == y;
      }
      DropLast(names, a);
      DropLast(names, b);
      OrderedUnique(names, a[..|a| - 1], b[..|b| - 1]);
    }
  }

  /** `FirstSeen` is the only duplicate-free sequence of exactly the non-empty
      names that lists them in the order of their first occurrence. */
  lemma FirstSeenCharacterized(names: seq<string>, s: seq<string>)
    requires NoDuplicates(s)
    requires forall t :: t in s <==> t != "" && t in names
    requires OrderedByFirstIndex(names, s)
    ensures s == FirstSeen(names)
  {
    FirstSeenOrder(names);
    OrderedUnique(names, s, FirstSeen(names));
  }
}
