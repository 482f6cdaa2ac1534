/** Order and membership facts about the lists the modelled code edits in place. */
module Sequences {

  ghost predicate NoDup<T(!new)>(s: seq<T>) {
    forall i, j :: 0 <= i < j < |s| ==> s[i] != s[j]
  }

  /** `a` stands somewhere to the left of `b`. */
  ghost predicate Before<T(!new)>(s: seq<T>, a: T, b: T) {
    exists i, j :: 0 <= i < j < |s| && s[i] == a && s[j] == b
  }

  /** `r` adds no ordering that `s` does not have. */
  ghost predicate OrderWithin<T(!new)>(r: seq<T>, s: seq<T>) {
    forall a, b :: Before(r, a, b) ==> Before(s, a, b)
  }

  /** `std::list::remove`. */
  function Without<T(==,!new)>(s: seq<T>, x: T): (r: seq<T>)
    ensures forall y :: y in r <==> y in s && y != x
    ensures |r| <= |s|
    ensures x !in s ==> r == s
  {
    if s == [] then []
    else if s[0] == x then Without(s[1..], x)
    else [s[0]] + Without(s[1..], x)
  }

  /** `s` after every element of `gone` has been erased from it. */
  function Keep<T(==,!new)>(s: seq<T>, gone: set<T>): (r: seq<T>)
    ensures forall y :: y in r <==> y in s && y !in gone
    ensures (forall y :: y in s ==> y !in gone) ==> r == s
    ensures |r| <= |s|
  {
    if s == [] then []
    else if s[0] in gone then Keep(s[1..], gone)
    else [s[0]] + Keep(s[1..], gone)
  }

  lemma {:induction false} KeepNothing<T(!new)>(s: seq<T>, gone: set<T>)
    requires forall y :: y in s ==> y in gone
    ensures Keep(s, gone) == []
  {
    if s != [] {
      KeepNothing(s[1..], gone);
    }
  }

  lemma {:induction false} KeepWithout<T(!new)>(s: seq<T>, gone: set<T>, x: T)
    ensures Without(Keep(s, gone), x) == Keep(s, gone + {x})
  {
    if s != [] {
      KeepWithout(s[1..], gone, x);
    }
  }

  lemma {:induction false} KeepOrder<T(!new)>(s: seq<T>, gone: set<T>)
    ensures OrderWithin(Keep(s, gone), s)
  {
    if s != [] {
      var t, r := s[1..], Keep(s, gone);
      KeepOrder(t, gone);
      forall a, b | Before(r, a, b) ensures Before(s, a, b) {
        if s[0] in gone {
          BeforeTail(s, a, b);
        } else {
          HeadBefore(s, r, a, b);
        }
      }
    }
  }

  lemma HeadBefore<T(!new)>(s: seq<T>, r: seq<T>, a: T, b: T)
    requires s != [] && r != [] && r[0] == s[0] && Before(r, a, b) && OrderWithin(r[1..], s[1..])
    requires forall y :: y in r[1..] ==> y in s[1..]
    ensures Before(s, a, b)
  {
    var i, j :| 0 <= i < j < |r| && r[i] == a && r[j] == b;
    var k := j - 1;
    assert r[1..][k] == b;
    if i > 0 {
      assert r[1..][i - 1] == a;
      assert Before(r[1..], a, b);
      BeforeTail(s, a, b);
    } else {
      assert b in r[1..];
      var m :| 0 <= m < |s[1..]| && s[1..][m] == b;
      assert s[0] == a && s[m + 1] == b;
    }
  }

  function IndexOf<T(==)>(s: seq<T>, x: T): (i: nat)
    requires x in s
    ensures i < |s| && s[i] == x
    ensures x !in s[..i]
  {
    if s[0] == x then 0 else 1 + IndexOf(s[1..], x)
  }

  /** In a duplicate-free list, dropping the one position that holds `x` is `remove(x)`. */
  lemma {:induction false} WithoutAt<T(!new)>(s: seq<T>, k: nat)
    requires NoDup(s) && k < |s|
    ensures Without(s, s[k]) == s[..k] + s[k + 1..]
  {
    if k == 0 {
      assert s[k] !in s[1..];
      assert s[..0] + s[1..] == s[1..];
    } else {
      WithoutAt(s[1..], k - 1);
      assert s[1..][..k - 1] == s[1..k] && s[1..][k..] == s[k + 1..];
      assert s[..k] + s[k + 1..] == [s[0]] + (s[1..k] + s[k + 1..]);
    }
  }

  lemma {:induction false} WithoutOrder<T(!new)>(s: seq<T>, x: T)
    ensures OrderWithin(Without(s, x), s)
  {
    if s != [] {
      var t, r := s[1..], Without(s, x);
      WithoutOrder(t, x);
      var w := Without(t, x);
      forall a, b | Before(r, a, b) ensures Before(s, a, b) {
        var i, j :| 0 <= i < j < |r| && r[i] == a && r[j] == b;
        if s[0] == x {
          assert Before(w, a, b);
          BeforeTail(s, a, b);
        } else if i == 0 {
          assert r[j] == w[j - 1];
          assert b in t;
          var k :| 0 <= k < |t| && t[k] == b;
          assert s[0] == a && s[k + 1] == b;
        } else {
          assert w[i - 1] == a && w[j - 1] == b;
          assert Before(w, a, b);
          BeforeTail(s, a, b);
        }
      }
    }
  }

  lemma OrderWithinNoDup<T(!new)>(r: seq<T>, s: seq<T>)
    requires OrderWithin(r, s) && NoDup(s)
    ensures NoDup(r)
  {
    forall i, j | 0 <= i < j < |r| ensures r[i] != r[j] {
      assert Before(r, r[i], r[j]);
      assert Before(s, r[i], r[j]);
    }
  }

  lemma BeforeTail<T(!new)>(s: seq<T>, a: T, b: T)
    requires s != [] && Before(s[1..], a, b)
    ensures Before(s, a, b)
  {
    var i, j :| 0 <= i < j < |s[1..]| && s[1..][i] == a && s[1..][j] == b;
    assert s[i + 1] == a && s[j + 1] == b;
  }

  lemma InsertOrder<T(!new)>(s: seq<T>, k: nat, x: T)
    requires k <= |s|
    ensures var r := s[..k] + [x] + s[k..];
            forall a, b :: Before(r, a, b) ==>
              Before(s, a, b) || (a == x && b in s[k..]) || (b == x && a in s[..k])
    ensures var r := s[..k] + [x] + s[k..];
            (forall y :: y in r <==> y == x || y in s) && (NoDup(s) && x !in s ==> NoDup(r))
  {
    var r := s[..k] + [x] + s[k..];
    forall a, b | Before(r, a, b)
      ensures Before(s, a, b) || (a == x && b in s[k..]) || (b == x && a in s[..k])
    {
      var i, j :| 0 <= i < j < |r| && r[i] == a && r[j] == b;
      if i != k && j != k {
        var i', j' := if i < k then i else i - 1, if j < k then j else j - 1;
        assert s[i'] == a && s[j'] == b;
      } else if i == k {
        assert r[j] == s[k..][j - k - 1];
      } else {
        assert r[i] == s[..k][i];
      }
    }
    forall y ensures y in r <==> y == x || y in s {
      if y in s {
        var i :| 0 <= i < |s| && s[i] == y;
        assert r[if i < k then i else i + 1] == y;
      }
      assert r[k] == x;
    }
    if NoDup(s) && x !in s {
      forall i, j | 0 <= i < j < |r| ensures r[i] != r[j] {
        if i != k && j != k {
          assert r[i] == s[if i < k then i else i - 1] && r[j] == s[if j < k then j else j - 1];
        }
      }
    }
  }

  lemma BeforeGivesPrefix<T(!new)>(s: seq<T>, a: T, k: nat)
    requires NoDup(s) && k < |s| && Before(s, a, s[k])
    ensures exists j :: 0 <= j < k && s[j] == a
  {
    var i, j :| 0 <= i < j < |s| && s[i] == a && s[j] == s[k];
    assert j == k;
  }

  lemma NoDupCount<T(!new)>(s: seq<T>)
    requires NoDup(s)
    ensures forall x :: multiset(s)[x] == if x in s then 1 else 0
  {
    if s != [] {
      var n := |s| - 1;
      assert s == s[..n] + [s[n]];
      assert s[n] !in s[..n];
      NoDupCount(s[..n]);
      forall x ensures multiset(s)[x] == if x in s then 1 else 0 {
        assert x in s <==> x in s[..n] || x == s[n];
      }
    }
  }

  lemma NoDupConcat<T(!new)>(a: seq<T>, b: seq<T>)
    requires NoDup(a) && NoDup(b) && forall x :: x in a ==> x !in b
    ensures NoDup(a + b)
  {
    forall i, j | 0 <= i < j < |a + b| ensures (a + b)[i] != (a + b)[j] {
      if i < |a| <= j {
        assert (a + b)[j] == b[j - |a|] && (a + b)[i] == a[i] && a[i] in a && b[j - |a|] in b;
      } else if |a| <= i {
        assert (a + b)[i] == b[i - |a|] && (a + b)[j] == b[j - |a|];
      }
    }
  }
}
