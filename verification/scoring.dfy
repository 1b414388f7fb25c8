/** The score computed at the top of `jsDOM.showResults`: the reciprocal of
    the sum of every test's time, summed in the order `results` is visited. */
module Scoring {
  import opened Trial
  import opened Results

  predicate Distinct(s: seq<string>) {
    forall i, j :: 0 <= i < j < |s| ==> s[i] != s[j]
  }

  /** `order` visits every key of `results` exactly once. */
  predicate Enumerates(order: seq<string>, results: map<string, Entry>) {
    && Distinct(order)
    && (forall k :: k in order ==> k in results)
    && (forall k :: k in results ==> k in order)
  }

  /** Every recorded time is a finite number. */
  predicate AllFinite(results: map<string, Entry>) {
    forall k :: k in results ==> results[k].time.Finite?
  }

  /** The keys of `keys` name finite entries of `results`. */
  predicate Summable(results: map<string, Entry>, keys: seq<string>) {
    forall k :: k in keys ==> k in results && results[k].time.Finite?
  }

  /** `score += test.time` over `keys`, in order. */
  function Total(results: map<string, Entry>, keys: seq<string>): real
    requires Summable(results, keys)
    decreases |keys|
  {
    if |keys| == 0 then 0.0
    else
      var n := |keys| - 1;
      Total(results, keys[..n]) + results[keys[n]].time.value
  }

  lemma {:induction false} TotalAppend(results: map<string, Entry>, a: seq<string>, b: seq<string>)
    requires Summable(results, a) && Summable(results, b)
    ensures Summable(results, a + b)
    ensures Total(results, a + b) == Total(results, a) + Total(results, b)
    decreases |b|
  {
    if |b| == 0 {
      assert a + b == a;
    } else {
      var n := |b| - 1;
      assert (a + b)[..|a| + n] == a + b[..n];
      assert (a + b)[|a| + n] == b[n];
      assert Summable(results, b[..n]) by {
        forall k | k in b[..n] ensures k in results && results[k].time.Finite? {
          assert k in b;
        }
      }
      TotalAppend(results, a, b[..n]);
    }
  }

  /** Taking one key out of the visit order takes its time out of the sum. */
  lemma TotalRemove(results: map<string, Entry>, keys: seq<string>, j: nat)
    requires j < |keys|
    requires Summable(results, keys)
    ensures Summable(results, keys[..j] + keys[j + 1..])
    ensures Total(results, keys)
         == Total(results, keys[..j] + keys[j + 1..]) + results[keys[j]].time.value
  {
    assert keys == keys[..j] + [keys[j]] + keys[j + 1..];
    TotalAppend(results, keys[..j], [keys[j]]);
    TotalAppend(results, keys[..j] + [keys[j]], keys[j + 1..]);
    TotalAppend(results, keys[..j], keys[j + 1..]);
    assert Total(results, [keys[j]]) == results[keys[j]].time.value by {
      assert [keys[j]][..0] == [];
    }
  }

  lemma FirstIsMember(s: seq<string>)
    ensures |s| > 0 ==> s[0] in s
  {
  }

  /** Removing the element at `j` from a sequence without repetitions
      removes exactly that key. */
  lemma RemoveAt(s: seq<string>, j: nat)
    requires j < |s|
    requires Distinct(s)
    ensures Distinct(s[..j] + s[j + 1..])
    ensures forall k :: k in s[..j] + s[j + 1..] <==> k in s && k != s[j]
  {
    var r := s[..j] + s[j + 1..];
    assert |r| == |s| - 1;
    assert forall i :: 0 <= i < |r| ==> r[i] == s[if i < j then i else i + 1];
    forall k ensures k in r <==> k in s && k != s[j] {
      if k in r {
        var i :| 0 <= i < |r| && r[i] == k;
      }
      if k in s && k != s[j] {
        var i :| 0 <= i < |s| && s[i] == k;
        assert r[if i < j then i else i - 1] == k;
      }
    }
  }

  /** The sum does not depend on the order the keys are visited in. */
  lemma {:induction false} TotalReorder(results: map<string, Entry>, a: seq<string>, b: seq<string>)
    requires Distinct(a) && Distinct(b)
    requires forall k :: k in a <==> k in b
    requires Summable(results, a)
    ensures Summable(results, b)
    ensures Total(results, a) == Total(results, b)
    decreases |a|
  {
    if |a| == 0 {
      FirstIsMember(b);
      assert |b| == 0;
    } else {
      var n := |a| - 1;
      var x := a[n];
      assert x in b;
      var j :| 0 <= j < |b| && b[j] == x;
      var a' := a[..n];
      var b' := b[..j] + b[j + 1..];
      RemoveAt(a, n);
      assert a[..n] + a[n + 1..] == a';
      RemoveAt(b, j);
      assert forall k :: k in a' <==> k in b' by {
        forall k ensures k in a' <==> k in b' {
          assert k in a' <==> k in a && k != x;
          assert k in b' <==> k in b && k != x;
        }
      }
      assert Summable(results, b) by {
        forall k | k in b ensures k in results && results[k].time.Finite? {
          assert k in a;
        }
      }
      TotalReorder(results, a', b');
      TotalRemove(results, b, j);
    }
  }

  /** `score = 1/score` after the sum: the number whose product with the
      total is 1. A zero total has no finite reciprocal. */
  function Score(results: map<string, Entry>, order: seq<string>): (s: real)
    requires Enumerates(order, results) && AllFinite(results)
    requires Total(results, order) != 0.0
    ensures s * Total(results, order) == 1.0
  {
    1.0 / Total(results, order)
  }

  /** The score is the same for every order of visiting `results`. */
  lemma ScoreOrderIndependent(results: map<string, Entry>, a: seq<string>, b: seq<string>)
    requires Enumerates(a, results) && Enumerates(b, results) && AllFinite(results)
    requires Total(results, a) != 0.0
    ensures Total(results, b) != 0.0
    ensures Score(results, a) == Score(results, b)
  {
    TotalReorder(results, a, b);
  }

  /** The `$.each` accumulation followed by the reciprocal. */
  method ShowScore(results: map<string, Entry>, order: seq<string>) returns (score: real)
    requires Enumerates(order, results) && AllFinite(results)
    requires Total(results, order) != 0.0
    ensures score == Score(results, order)
  {
    score := 0.0;
    var i := 0;
    while i < |order|
      invariant 0 <= i <= |order|
      invariant score == Total(results, order[..i])
    {
      assert order[..i + 1][..i] == order[..i];
      score := score + results[order[i]].time.value;
      i := i + 1;
    }
    assert order[..i] == order;
    score := 1.0 / score;
  }

  /** Two tests of 0.5 s and 0.25 s score 1/0.75 = 4/3. */
  lemma TwoTestExample()
    ensures var r := map["a" := Entry("", Finite(0.5)), "b" := Entry("", Finite(0.25))];
            Enumerates(["a", "b"], r) && AllFinite(r) && Total(r, ["a", "b"]) == 0.75
            && Score(r, ["a", "b"]) == 4.0 / 3.0
  {
    var r := map["a" := Entry("", Finite(0.5)), "b" := Entry("", Finite(0.25))];
    assert ["a", "b"][..1] == ["a"];
    assert ["a"][..0] == [];
  }
}
