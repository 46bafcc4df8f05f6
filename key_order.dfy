/**
 * Insertion order of the keys of a JavaScript `Map`: a sequence without
 * repetitions, from which `delete` removes a key and to which `set` of a new
 * key appends one.
 */
module KeyOrder {

  predicate Distinct(s: seq<string>) {
    forall i, j :: 0 <= i < j < |s| ==> s[i] != s[j]
  }

  function Elems(s: seq<string>): (r: set<string>)
    ensures forall x :: x in r <==> x in s
  {
    set x | x in s
  }

  lemma ElemsSnoc(s: seq<string>, x: string)
    ensures Elems(s + [x]) == Elems(s) + {x}
  {
  }

  /** `s` with every key of `ks` removed, the others kept in their order. */
  function Without(s: seq<string>, ks: set<string>): (r: seq<string>)
    ensures forall x :: x in r <==> x in s && x !in ks
    ensures |r| <= |s|
  {
    if |s| == 0 then []
    else if s[0] in ks then Without(s[1..], ks)
    else [s[0]] + Without(s[1..], ks)
  }

  lemma DistinctCons(x: string, s: seq<string>)
    requires x !in s && Distinct(s)
    ensures Distinct([x] + s)
  {
  }

  /** Removing keys keeps a sequence free of repetitions. */
  lemma {:induction false} WithoutDistinct(s: seq<string>, ks: set<string>)
    requires Distinct(s)
    ensures Distinct(Without(s, ks))
  {
    if |s| > 0 {
      assert Distinct(s[1..]) by {
        forall i, j | 0 <= i < j < |s[1..]| ensures s[1..][i] != s[1..][j] {
          assert s[1..][i] == s[i + 1] && s[1..][j] == s[j + 1];
        }
      }
      WithoutDistinct(s[1..], ks);
      if s[0] !in ks {
        assert s[0] !in s[1..] by {
          forall j | 0 <= j < |s[1..]| ensures s[1..][j] != s[0] {
            assert s[1..][j] == s[j + 1];
          }
        }
        DistinctCons(s[0], Without(s[1..], ks));
      }
    }
  }

  /** Removing nothing that occurs leaves the sequence as it is. */
  lemma {:induction false} WithoutNoneOf(s: seq<string>, ks: set<string>)
    requires forall x :: x in ks ==> x !in s
    ensures Without(s, ks) == s
  {
    if |s| > 0 {
      WithoutNoneOf(s[1..], ks);
      assert [s[0]] + s[1..] == s;
    }
  }

  /** Removing `ks` and then `k` is removing `ks + {k}`. */
  lemma {:induction false} WithoutTwice(s: seq<string>, ks: set<string>, k: string)
    ensures Without(Without(s, ks), {k}) == Without(s, ks + {k})
  {
    if |s| > 0 {
      WithoutTwice(s[1..], ks, k);
      if s[0] !in ks {
        assert ([s[0]] + Without(s[1..], ks))[1..] == Without(s[1..], ks);
      }
    }
  }

  /** A sequence without repetitions has as many elements as its element set. */
  lemma {:induction false} DistinctCard(s: seq<string>)
    requires Distinct(s)
    ensures |Elems(s)| == |s|
  {
    if |s| > 0 {
      assert Distinct(s[1..]) by {
        forall i, j | 0 <= i < j < |s[1..]| ensures s[1..][i] != s[1..][j] {
          assert s[1..][i] == s[i + 1] && s[1..][j] == s[j + 1];
        }
      }
      DistinctCard(s[1..]);
      assert s[0] !in Elems(s[1..]) by {
        forall j | 0 <= j < |s[1..]| ensures s[1..][j] != s[0] {
          assert s[1..][j] == s[j + 1];
        }
      }
      assert Elems(s) == {s[0]} + Elems(s[1..]) by {
        assert s == [s[0]] + s[1..];
      }
    }
  }
}
