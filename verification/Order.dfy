/** The order in which backup ids are compared, and what "the newest k" means. */
module Order {

  /** Python's `<` on strings: lexicographic by code point. */
  predicate Less(a: string, b: string) {
    if b == "" then false
    else if a == "" then true
    else if a[0] != b[0] then a[0] < b[0]
    else Less(a[1..], b[1..])
  }

  lemma {:induction false} LessIrreflexive(a: string)
    ensures !Less(a, a)
  {
    if a != "" { LessIrreflexive(a[1..]); }
  }

  lemma {:induction false} LessTransitive(a: string, b: string, c: string)
    requires Less(a, b) && Less(b, c)
    ensures Less(a, c)
  {
    if a != "" && a[0] == b[0] == c[0] { LessTransitive(a[1..], b[1..], c[1..]); }
  }

  lemma {:induction false} LessTotal(a: string, b: string)
    requires a != b
    ensures Less(a, b) != Less(b, a)
  {
    if a != "" && b != "" && a[0] == b[0] {
      assert a == [a[0]] + a[1..] && b == [b[0]] + b[1..];
      LessTotal(a[1..], b[1..]);
    }
  }

  lemma {:induction false} LessCommonPrefix(p: string, a: string, b: string)
    ensures Less(p + a, p + b) == Less(a, b)
  {
    if p == "" {
      assert p + a == a && p + b == b;
    } else {
      assert (p + a)[1..] == p[1..] + a && (p + b)[1..] == p[1..] + b;
      LessCommonPrefix(p[1..], a, b);
    }
  }

  /** `a` comes before `b` where they first part, or `b` goes on where `a` ends. */
  ghost predicate PartsBefore(a: string, b: string, k: nat) {
    k <= |a| && k < |b| && a[..k] == b[..k] && (k == |a| || a[k] < b[k])
  }

  lemma {:induction false} LessMeans(a: string, b: string)
    ensures Less(a, b) <==> exists k: nat :: PartsBefore(a, b, k)
  {
    if a != "" && b != "" && a[0] == b[0] {
      LessMeans(a[1..], b[1..]);
      if k: nat :| PartsBefore(a[1..], b[1..], k) {
        assert a[..k + 1] == [a[0]] + a[1..][..k] && b[..k + 1] == [b[0]] + b[1..][..k];
        assert PartsBefore(a, b, k + 1);
      }
      if k: nat :| PartsBefore(a, b, k) {
        assert k > 0;
        assert a[1..][..k - 1] == a[..k][1..] && b[1..][..k - 1] == b[..k][1..];
        assert PartsBefore(a[1..], b[1..], k - 1);
      }
    } else if b != "" && (a == "" || a[0] < b[0]) {
      assert PartsBefore(a, b, 0);
    } else {
      forall k: nat | PartsBefore(a, b, k) ensures false {
        if k > 0 { SameStart(a, b, k); }
      }
    }
  }

  lemma SameStart(a: string, b: string, k: nat)
    requires 0 < k <= |a| && k <= |b| && a[..k] == b[..k]
    ensures a[0] == b[0]
  {
    assert a[..k][0] == b[..k][0];
  }

  ghost function Newer(s: set<string>, x: string): set<string> {
    set y | y in s && Less(x, y)
  }

  /** The members of `s` that fewer than `k` members of `s` are newer than. */
  ghost function Newest(s: set<string>, k: nat): set<string> {
    set x | x in s && |Newer(s, x)| < k
  }

  function Min(a: nat, b: nat): nat { if a < b then a else b }

  lemma SubsetCard<T>(a: set<T>, b: set<T>)
    requires a <= b
    ensures |a| <= |b|
    ensures a != b ==> |a| < |b|
  {
    assert b == a + (b - a);
    if a != b { assert b - a != {}; }
  }

  lemma {:induction false} Oldest(s: set<string>) returns (m: string)
    requires s != {}
    ensures m in s && forall x :: x in s && x != m ==> Less(m, x)
    decreases |s|
  {
    var y :| y in s;
    var rest := s - {y};
    if rest == {} {
      assert s == {y};
      m := y;
    } else {
      var r := Oldest(rest);
      LessTotal(y, r);
      m := if Less(r, y) then r else y;
      forall x | x in s && x != m ensures Less(m, x) {
        if x != y {
          assert x in rest;
          if m == y && x != r { LessTransitive(y, r, x); }
        }
      }
    }
  }

  lemma {:induction false} NewestCount(s: set<string>, k: nat)
    ensures |Newest(s, k)| == Min(k, |s|)
    decreases |s|
  {
    if |s| <= k {
      forall x | x in s ensures x in Newest(s, k) {
        LessIrreflexive(x);
        SubsetCard(Newer(s, x), s - {x});
      }
      assert Newest(s, k) == s;
    } else {
      var m := Oldest(s);
      var rest := s - {m};
      assert s == rest + {m};
      LessIrreflexive(m);
      assert Newer(s, m) == rest;
      forall x | x in rest ensures Newer(s, x) == Newer(rest, x) {
        LessTotal(m, x);
      }
      assert Newest(s, k) == Newest(rest, k);
      NewestCount(rest, k);
    }
  }

  lemma NewestDominates(s: set<string>, k: nat, x: string, y: string)
    requires x in Newest(s, k) && y in s && y !in Newest(s, k)
    ensures Less(y, x)
  {
    LessTotal(x, y);
    if Less(x, y) {
      forall z | z in Newer(s, y) ensures z in Newer(s, x) { LessTransitive(x, y, z); }
      SubsetCard(Newer(s, y), Newer(s, x));
    }
  }

  /** Being among the newest of a collection is inherited by every subcollection. */
  lemma NewestInSubset(s: set<string>, t: set<string>, k: nat, x: string)
    requires t <= s && x in t && x in Newest(s, k)
    ensures x in Newest(t, k)
  {
    SubsetCard(Newer(t, x), Newer(s, x));
  }

  /** Anything between the newest k of `all` and `all` has the same newest k. */
  lemma NewestOfBetween(all: set<string>, some: set<string>, k: nat)
    requires Newest(all, k) <= some <= all
    ensures Newest(some, k) == Newest(all, k)
  {
    forall x | x in Newest(all, k) ensures x in Newest(some, k) {
      NewestInSubset(all, some, k, x);
    }
    forall x | x in Newest(some, k) ensures x in Newest(all, k) {
      if x !in Newest(all, k) {
        forall z | z in Newest(all, k) ensures z in Newer(some, x) {
          NewestDominates(all, k, z, x);
        }
        SubsetCard(Newest(all, k), Newer(some, x));
        NewestCount(all, k);
        LessIrreflexive(x);
        SubsetCard(Newer(all, x), all - {x});
      }
    }
  }

  /** A part of the newest k is its own newest k. */
  lemma NewestIsStable(all: set<string>, c: set<string>, k: nat)
    requires c <= Newest(all, k)
    ensures Newest(c, k) == c
  {
    forall x | x in c ensures x in Newest(c, k) { NewestInSubset(all, c, k, x); }
  }

  /** Trimming to the newest k before adding more changes nothing in the end. */
  lemma NewestCompose(a: set<string>, b: set<string>, k: nat)
    ensures Newest(Newest(a, k) + b, k) == Newest(a + b, k)
  {
    forall x | x in Newest(a + b, k) ensures x in Newest(a, k) + b {
      if x in a { NewestInSubset(a + b, a, k, x); }
    }
    NewestOfBetween(a + b, Newest(a, k) + b, k);
  }

  /** A string newer than everything in `s` is among the newest of `s` and itself. */
  lemma NewestHasMaximum(s: set<string>, x: string, k: nat)
    requires k >= 1
    requires forall y :: y in s ==> Less(y, x)
    ensures x in Newest(s + {x}, k)
  {
    LessIrreflexive(x);
    forall y | y in s ensures !Less(x, y) {
      LessIrreflexive(y);
      LessTotal(x, y);
    }
    assert Newer(s + {x}, x) == {};
  }
}
