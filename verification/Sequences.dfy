/** In-order subsequences and flattening: the vocabulary of the packet-path theorems. */
module Sequences {

  function Flatten<T>(s: seq<seq<T>>): seq<T> {
    if s == [] then [] else Flatten(s[..|s| - 1]) + s[|s| - 1]
  }

  lemma {:induction false} FlattenAppend<T>(s: seq<seq<T>>, t: seq<seq<T>>)
    ensures Flatten(s + t) == Flatten(s) + Flatten(t)
  {
    if t == [] {
      assert s + t == s;
    } else {
      var init := t[..|t| - 1];
      assert (s + t)[..|s + t| - 1] == s + init;
      FlattenAppend(s, init);
      assert Flatten(s) + (Flatten(init) + t[|t| - 1]) == Flatten(s) + Flatten(init) + t[|t| - 1];
    }
  }

  lemma FlattenOne<T>(s: seq<T>)
    ensures Flatten([s]) == s
  {
    assert [s][..0] == [];
    assert [] + s == s;
  }

  /** `at` lists exactly these positions, in order. */
  ghost predicate InOrder(at: seq<nat>, positions: set<nat>) {
    && (forall i, j :: 0 <= i < j < |at| ==> at[i] < at[j])
    && (forall n :: n in at <==> n in positions)
  }

  /** One position more, after all the others. */
  lemma InOrderNext(at: seq<nat>, positions: set<nat>, n: nat)
    requires InOrder(at, positions) && forall m :: m in positions ==> m < n
    ensures InOrder(at + [n], positions + {n})
  {
    var more := at + [n];
    forall i, j | 0 <= i < j < |more| ensures more[i] < more[j] {
      assert at[i] in positions;
    }
    forall m ensures m in more <==> m in positions + {n} {}
  }

  /** The list is as long as there are positions. */
  lemma {:induction false} InOrderSize(at: seq<nat>, positions: set<nat>)
    requires InOrder(at, positions)
    ensures |at| == |positions|
  {
    if at == [] {
      assert positions == {};
    } else {
      var front, last := at[..|at| - 1], at[|at| - 1];
      assert at == front + [last];
      assert last !in front;
      forall n ensures n in front <==> n in positions - {last} {}
      InOrderSize(front, positions - {last});
    }
  }

  /** `a` is `b` with some elements left out, in the same order. */
  ghost predicate Subsequence<T>(a: seq<T>, b: seq<T>)
    decreases |b|
  {
    || a == []
    || (&& b != []
        && (|| Subsequence(a, b[..|b| - 1])
            || (a[|a| - 1] == b[|b| - 1] && Subsequence(a[..|a| - 1], b[..|b| - 1]))))
  }

  /** Read by position: the elements of `a` stand in `b` at increasing places. */
  ghost predicate Embeds<T>(a: seq<T>, b: seq<T>, at: seq<nat>) {
    && |at| == |a|
    && (forall i, j :: 0 <= i < j < |at| ==> at[i] < at[j])
    && (forall i :: 0 <= i < |at| ==> at[i] < |b| && a[i] == b[at[i]])
  }

  lemma {:induction false} SubsequenceEmbeds<T>(a: seq<T>, b: seq<T>) returns (at: seq<nat>)
    requires Subsequence(a, b)
    ensures Embeds(a, b, at)
    decreases |b|
  {
    if a == [] {
      at := [];
    } else if Subsequence(a, b[..|b| - 1]) {
      at := SubsequenceEmbeds(a, b[..|b| - 1]);
    } else {
      var front := SubsequenceEmbeds(a[..|a| - 1], b[..|b| - 1]);
      at := front + [|b| - 1];
    }
  }

  lemma {:induction false} EmbeddingIsSubsequence<T>(a: seq<T>, b: seq<T>, at: seq<nat>)
    requires Embeds(a, b, at)
    ensures Subsequence(a, b)
    decreases |b|
  {
    if a != [] {
      var last := |b| - 1;
      if at[|at| - 1] == last {
        EmbeddingIsSubsequence(a[..|a| - 1], b[..last], at[..|at| - 1]);
      } else {
        assert forall i :: 0 <= i < |at| ==> at[i] <= at[|at| - 1] < last;
        EmbeddingIsSubsequence(a, b[..last], at);
      }
    }
  }

  /** The recursive reading of "subsequence" and the positional one are the same. */
  lemma SubsequenceIffEmbeds<T>(a: seq<T>, b: seq<T>)
    ensures Subsequence(a, b) <==> exists at :: Embeds(a, b, at)
  {
    if Subsequence(a, b) {
      var at := SubsequenceEmbeds(a, b);
    }
    forall at | Embeds(a, b, at) ensures Subsequence(a, b) {
      EmbeddingIsSubsequence(a, b, at);
    }
  }

  lemma {:induction false} SubsequenceRefl<T>(a: seq<T>)
    ensures Subsequence(a, a)
    decreases |a|
  {
    if a != [] {
      SubsequenceRefl(a[..|a| - 1]);
    }
  }

  /** Dropping the newest element of the whole. */
  lemma SubsequenceSkip<T>(a: seq<T>, b: seq<T>, x: T)
    requires Subsequence(a, b)
    ensures Subsequence(a, b + [x])
  {
    assert (b + [x])[..|b|] == b;
  }

  /** Keeping the newest element of the whole. */
  lemma SubsequenceKeep<T>(a: seq<T>, b: seq<T>, x: T)
    requires Subsequence(a, b)
    ensures Subsequence(a + [x], b + [x])
  {
    assert (b + [x])[..|b|] == b && (a + [x])[..|a|] == a;
  }

  lemma {:induction false} SubsequenceConcat<T>(a: seq<T>, b: seq<T>, c: seq<T>, d: seq<T>)
    requires Subsequence(a, b) && Subsequence(c, d)
    ensures Subsequence(a + c, b + d)
    decreases |d|
  {
    if d == [] {
      assert a + c == a && b + d == b;
    } else {
      var x := d[|d| - 1];
      var front := d[..|d| - 1];
      assert b + d == (b + front) + [x];
      if Subsequence(c, front) {
        SubsequenceConcat(a, b, c, front);
        SubsequenceSkip(a + c, b + front, x);
      } else {
        SubsequenceConcat(a, b, c[..|c| - 1], front);
        SubsequenceKeep(a + c[..|c| - 1], b + front, x);
        assert a + c == (a + c[..|c| - 1]) + [x];
      }
    }
  }

  lemma {:induction false} SubsequenceTrans<T>(a: seq<T>, b: seq<T>, c: seq<T>)
    requires Subsequence(a, b) && Subsequence(b, c)
    ensures Subsequence(a, c)
    decreases |c|
  {
    if a != [] && b != [] {
      var front := c[..|c| - 1];
      if Subsequence(b, front) {
        SubsequenceTrans(a, b, front);
      } else if Subsequence(a, b[..|b| - 1]) {
        SubsequenceTrans(a, b[..|b| - 1], front);
      } else {
        SubsequenceTrans(a[..|a| - 1], b[..|b| - 1], front);
      }
    }
  }

  lemma SubsequenceExtend<T>(a: seq<T>, b: seq<T>, c: seq<T>)
    requires Subsequence(a, b)
    ensures Subsequence(a, b + c)
  {
    SubsequenceConcat(a, b, [], c);
    assert a + [] == a;
  }

  lemma {:induction false} SubsequenceShorter<T>(a: seq<T>, b: seq<T>)
    requires Subsequence(a, b)
    ensures |a| <= |b|
    ensures |a| == |b| ==> a == b
    decreases |b|
  {
    if a != [] {
      if Subsequence(a, b[..|b| - 1]) {
        SubsequenceShorter(a, b[..|b| - 1]);
      } else {
        SubsequenceShorter(a[..|a| - 1], b[..|b| - 1]);
      }
    }
  }

  lemma SubsequenceAntisymmetric<T>(a: seq<T>, b: seq<T>)
    requires Subsequence(a, b) && Subsequence(b, a)
    ensures a == b
  {
    SubsequenceShorter(a, b);
    SubsequenceShorter(b, a);
  }
}
