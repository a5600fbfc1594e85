/**
 * The order of the joint selector (KeypointsViewer.tsx, `numericOrStringSort`
 * and the `.sort` it drives). Two names that both read as numbers compare by
 * value, any other pair compares as text. `Number()` is modelled as "every
 * character is an ASCII digit" and `localeCompare` as lexicographic order
 * on characters; the sort is a stable insertion sort driven by the comparator.
 */
module JointOrder {
  import opened Text

  /** `localeCompare`: negative, zero or positive. */
  function LexCompare(a: string, b: string): (r: int)
    ensures -1 <= r <= 1
  {
    if a == [] then (if b == [] then 0 else -1)
    else if b == [] then 1
    else if a[0] < b[0] then -1
    else if b[0] < a[0] then 1
    else LexCompare(a[1..], b[1..])
  }

  lemma {:induction false} LexAntisymmetric(a: string, b: string)
    ensures LexCompare(a, b) == -LexCompare(b, a)
  {
    if a != [] && b != [] && a[0] == b[0] {
      LexAntisymmetric(a[1..], b[1..]);
    }
  }

  lemma {:induction false} LexZeroIffEqual(a: string, b: string)
    ensures LexCompare(a, b) == 0 <==> a == b
  {
    if a != [] && b != [] && a[0] == b[0] {
      LexZeroIffEqual(a[1..], b[1..]);
      assert a == [a[0]] + a[1..] && b == [b[0]] + b[1..];
    }
  }

  lemma {:induction false} LexTransitive(a: string, b: string, c: string)
    requires LexCompare(a, b) <= 0 && LexCompare(b, c) <= 0
    ensures LexCompare(a, c) <= 0
  {
    if a != [] && b != [] && c != [] && a[0] == b[0] && b[0] == c[0] {
      LexTransitive(a[1..], b[1..], c[1..]);
    }
  }

  /** `!Number.isNaN(Number(s))`, restricted to digit strings. */
  predicate IsNumeric(s: string) {
    AllDigits(s)
  }

  /** `numericOrStringSort(a, b)`. */
  function Compare(a: string, b: string): int {
    if IsNumeric(a) && IsNumeric(b) then ValueOf(a) - ValueOf(b) else LexCompare(a, b)
  }

  /** Swapping the arguments flips the sign, whatever the names. */
  lemma CompareAntisymmetric(a: string, b: string)
    ensures Compare(a, b) == -Compare(b, a)
  {
    LexAntisymmetric(a, b);
  }

  lemma CompareReflexive(a: string)
    ensures Compare(a, a) == 0
  {
    LexZeroIffEqual(a, a);
  }

  /** Every name numeric, or none: the sets on which the comparator is an order. */
  predicate Uniform(s: seq<string>) {
    (forall n :: n in s ==> IsNumeric(n)) || (forall n :: n in s ==> !IsNumeric(n))
  }

  /** On a uniform set of names the comparator is transitive. */
  lemma CompareTransitive(a: string, b: string, c: string)
    requires Uniform([a, b, c])
    requires Compare(a, b) <= 0 && Compare(b, c) <= 0
    ensures Compare(a, c) <= 0
  {
    assert a in [a, b, c] && b in [a, b, c] && c in [a, b, c];
    if !IsNumeric(a) {
      LexTransitive(a, b, c);
    }
  }

  /** With numeric and non-numeric names mixed the comparator has a cycle: 9 < 10 < 1a < 9. */
  lemma MixedNamesCycle()
    ensures Compare("9", "10") < 0 && Compare("10", "1a") < 0 && Compare("1a", "9") < 0
  {
    assert "1a"[1] == 'a';
    assert ValueOf("10") == 10 by { assert "10"[..1] == "1"; }
    assert LexCompare("10", "1a") == LexCompare("0", "a") by { assert "10"[1..] == "0"; assert "1a"[1..] == "a"; }
  }

  predicate Ordered(s: seq<string>) {
    forall i, j :: 0 <= i < j < |s| ==> Compare(s[i], s[j]) <= 0
  }

  predicate StrictlyOrdered(s: seq<string>) {
    forall i, j :: 0 <= i < j < |s| ==> Compare(s[i], s[j]) < 0
  }

  /** Insert `x` after every element that does not compare greater (keeps the sort stable). */
  function Insert(x: string, s: seq<string>): (r: seq<string>)
    ensures multiset(r) == multiset(s) + multiset{x}
  {
    if s == [] then [x]
    else if Compare(x, s[0]) < 0 then [x] + s
    else
      assert s == [s[0]] + s[1..];
      [s[0]] + Insert(x, s[1..])
  }

  /** `names.sort(numericOrStringSort)`: a permutation of `names`. */
  function SortNames(names: seq<string>): (r: seq<string>)
    ensures multiset(r) == multiset(names)
  {
    if names == [] then []
    else
      assert names == names[..|names| - 1] + [names[|names| - 1]];
      Insert(names[|names| - 1], SortNames(names[..|names| - 1]))
  }

  /** Membership in a sequence that is not empty. */
  lemma HeadIsMember(s: seq<string>)
    requires s != []
    ensures s[0] in s
  {
  }

  lemma UniformSubset(s: seq<string>, t: seq<string>)
    requires Uniform(s)
    requires forall n :: n in t ==> n in s
    ensures Uniform(t)
  {
  }

  /** `x` smaller than the head of an ordered list: putting it in front keeps the list ordered. */
  lemma PrependOrdered(x: string, s: seq<string>)
    requires Ordered(s) && Uniform([x] + s)
    requires s != [] && Compare(x, s[0]) <= 0
    ensures Ordered([x] + s)
  {
    var r := [x] + s;
    forall j | 1 <= j < |r| ensures Compare(x, r[j]) <= 0 {
      if j > 1 {
        UniformSubset([x] + s, [x, s[0], s[j - 1]]);
        CompareTransitive(x, s[0], s[j - 1]);
      }
    }
  }

  /** A head no greater than every later element, in front of an ordered list. */
  lemma ConsOrdered(h: string, t: seq<string>)
    requires Ordered(t)
    requires forall k :: 0 <= k < |t| ==> Compare(h, t[k]) <= 0
    ensures Ordered([h] + t)
  {
    var r := [h] + t;
    forall i, j | 0 <= i < j < |r| ensures Compare(r[i], r[j]) <= 0 {
      if i > 0 {
        assert r[i] == t[i - 1] && r[j] == t[j - 1];
      } else {
        assert r[j] == t[j - 1];
      }
    }
  }

  lemma {:induction false} InsertOrdered(x: string, s: seq<string>)
    requires Ordered(s) && Uniform([x] + s)
    ensures Ordered(Insert(x, s))
  {
    if s == [] {
    } else if Compare(x, s[0]) < 0 {
      PrependOrdered(x, s);
    } else {
      var rest := s[1..];
      UniformSubset([x] + s, [x] + rest);
      InsertOrdered(x, rest);
      var t := Insert(x, rest);
      forall k | 0 <= k < |t| ensures Compare(s[0], t[k]) <= 0 {
        assert t[k] in multiset(t);
        if t[k] == x {
          CompareAntisymmetric(x, s[0]);
        } else {
          assert t[k] in multiset(rest);
          var m :| 0 <= m < |rest| && rest[m] == t[k];
          assert s[m + 1] == t[k];
        }
      }
      ConsOrdered(s[0], t);
    }
  }

  /** On uniform names the sort's output is ordered. */
  lemma {:induction false} SortNamesOrdered(names: seq<string>)
    requires Uniform(names)
    ensures Ordered(SortNames(names))
  {
    if names != [] {
      var prefix := names[..|names| - 1];
      var x := names[|names| - 1];
      assert forall n :: n in prefix ==> n in names;
      SortNamesOrdered(prefix);
      var sorted := SortNames(prefix);
      forall n | n in [x] + sorted ensures n in names {
        if n != x {
          assert n in multiset(sorted);
        }
      }
      InsertOrdered(x, sorted);
    }
  }

  /** No two distinct names compare as equal (fails only for numeric spellings such as "1" and "01"). */
  predicate DistinctKeys(s: seq<string>) {
    forall a, b :: a in s && b in s && a != b ==> Compare(a, b) != 0
  }

  lemma NonNumericKeysDistinct(s: seq<string>)
    requires forall n :: n in s ==> !IsNumeric(n)
    ensures DistinctKeys(s)
  {
    forall a, b | a in s && b in s && a != b ensures Compare(a, b) != 0 {
      LexZeroIffEqual(a, b);
    }
  }

  /** Two strictly ordered lists of the same names are the same list. */
  lemma {:induction false} StrictlyOrderedUnique(s1: seq<string>, s2: seq<string>)
    requires StrictlyOrdered(s1) && StrictlyOrdered(s2)
    requires forall n :: n in s1 <==> n in s2
    ensures s1 == s2
  {
    if s1 == [] || s2 == [] {
      if s1 != [] {
        HeadIsMember(s1);
        assert false;
      } else if s2 != [] {
        HeadIsMember(s2);
        assert false;
      }
    } else {
      assert s1[0] in s2;
      assert s2[0] in s1;
      if s1[0] != s2[0] {
        var k :| 0 <= k < |s2| && s2[k] == s1[0];
        var m :| 0 <= m < |s1| && s1[m] == s2[0];
        CompareAntisymmetric(s1[0], s2[0]);
        assert false;
      }
      forall n ensures n in s1[1..] <==> n in s2[1..] {
        if n in s1[1..] {
          var i :| 1 <= i < |s1| && s1[i] == n;
          CompareReflexive(n);
          assert n in s2;
          var j :| 0 <= j < |s2| && s2[j] == n;
          if j == 0 { assert false; }
        }
        if n in s2[1..] {
          var j :| 1 <= j < |s2| && s2[j] == n;
          CompareReflexive(n);
          assert n in s1;
          var i :| 0 <= i < |s1| && s1[i] == n;
          if i == 0 { assert false; }
        }
      }
      StrictlyOrderedUnique(s1[1..], s2[1..]);
      assert s1 == [s1[0]] + s1[1..] && s2 == [s2[0]] + s2[1..];
    }
  }

  lemma NumericExampleValues()
    ensures IsNumeric("1") && IsNumeric("2") && IsNumeric("10")
    ensures Compare("2", "10") == -8 && Compare("1", "2") == -1
  {
    assert "10"[..1] == "1";
    assert ValueOf("10") == 10;
  }

  /** The sort of the numeric names "10", "2", "1" is "1", "2", "10". */
  lemma SortNumericExample()
    ensures SortNames(["10", "2", "1"]) == ["1", "2", "10"]
  {
    NumericExampleValues();
    var s1 := Insert("10", []);
    assert s1 == ["10"];
    var s2 := Insert("2", s1);
    assert s2 == ["2", "10"];
    var s3 := Insert("1", s2);
    assert s3 == ["1", "2", "10"];
    assert ["10"][..0] == [];
    assert ["10", "2"][..1] == ["10"];
    assert ["10", "2", "1"][..2] == ["10", "2"];
  }
}
