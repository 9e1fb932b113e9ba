/**
 Strings compared by code point, as Python compares them, and strictly ascending lists of them.
 */
module Text {

  predicate Less(a: string, b: string) {
    b != [] && (a == [] || a[0] < b[0] || (a[0] == b[0] && Less(a[1..], b[1..])))
  }

  // The strings differ first at n, or a ends there.
  predicate FirstDifference(a: string, b: string, n: int) {
    0 <= n <= |a| && n < |b| && a[..n] == b[..n] && (n == |a| || a[n] < b[n])
  }

  lemma {:induction false} LessIff(a: string, b: string)
    ensures Less(a, b) <==> exists n :: FirstDifference(a, b, n)
  {
    if a == [] || b == [] || a[0] != b[0] {
      if Less(a, b) {
        assert FirstDifference(a, b, 0);
      } else {
        forall n ensures !FirstDifference(a, b, n) {
          if 0 < n <= |a| && n < |b| {
            assert a[..n][0] == a[0] && b[..n][0] == b[0];
          }
        }
      }
    } else {
      LessIff(a[1..], b[1..]);
      DifferenceInTail(a, b);
    }
  }

  lemma DifferenceInTail(a: string, b: string)
    requires a != [] && b != [] && a[0] == b[0]
    ensures (exists n :: FirstDifference(a, b, n)) <==> exists n :: FirstDifference(a[1..], b[1..], n)
  {
    if exists n :: FirstDifference(a, b, n) {
      var n :| FirstDifference(a, b, n);
      assert a[..n][1..] == a[1..][..n - 1] && b[..n][1..] == b[1..][..n - 1];
      assert FirstDifference(a[1..], b[1..], n - 1);
    }
    if exists n :: FirstDifference(a[1..], b[1..], n) {
      var n :| FirstDifference(a[1..], b[1..], n);
      assert a[..n + 1] == [a[0]] + a[1..][..n] && b[..n + 1] == [b[0]] + b[1..][..n];
      assert FirstDifference(a, b, n + 1);
    }
  }

  lemma {:induction false} LessIrreflexive(a: string)
    ensures !Less(a, a)
  {
    if a != [] {
      LessIrreflexive(a[1..]);
    }
  }

  lemma {:induction false} LessTransitive(a: string, b: string, c: string)
    requires Less(a, b) && Less(b, c)
    ensures Less(a, c)
  {
    if a != [] && a[0] == b[0] && b[0] == c[0] {
      LessTransitive(a[1..], b[1..], c[1..]);
    }
  }

  lemma {:induction false} LessTotal(a: string, b: string)
    ensures Less(a, b) || a == b || Less(b, a)
  {
    if a != [] && b != [] && a[0] == b[0] {
      LessTotal(a[1..], b[1..]);
      assert a == [a[0]] + a[1..] && b == [b[0]] + b[1..];
    }
  }

  predicate Ascending(xs: seq<string>) {
    forall i, j :: 0 <= i < j < |xs| ==> Less(xs[i], xs[j])
  }

  // Comparing neighbours is enough.
  lemma {:induction false} NeighboursAscending(xs: seq<string>)
    requires forall i :: 0 <= i < |xs| - 1 ==> Less(xs[i], xs[i + 1])
    ensures Ascending(xs)
  {
    if |xs| > 1 {
      forall i | 0 <= i < |xs[1..]| - 1 ensures Less(xs[1..][i], xs[1..][i + 1]) {
        assert Less(xs[i + 1], xs[i + 1 + 1]);
      }
      NeighboursAscending(xs[1..]);
      forall i, j | 0 <= i < j < |xs| ensures Less(xs[i], xs[j]) {
        assert xs[j] == xs[1..][j - 1] && xs[1] == xs[1..][0];
        if i > 0 {
          assert xs[i] == xs[1..][i - 1];
        } else if j > 1 {
          LessTransitive(xs[0], xs[1], xs[j]);
        }
      }
    }
  }

  // Two ascending parts that share an element make an ascending whole.
  lemma AscendingOverlap(xs: seq<string>, n: nat)
    requires n < |xs| && Ascending(xs[..n + 1]) && Ascending(xs[n..])
    ensures Ascending(xs)
  {
    forall i, j | 0 <= i < j < |xs| ensures Less(xs[i], xs[j]) {
      if j <= n {
        assert xs[..n + 1][i] == xs[i] && xs[..n + 1][j] == xs[j];
      } else if n <= i {
        assert xs[n..][i - n] == xs[i] && xs[n..][j - n] == xs[j];
      } else {
        assert xs[..n + 1][i] == xs[i] && xs[..n + 1][n] == xs[n] == xs[n..][0] && xs[n..][j - n] == xs[j];
        LessTransitive(xs[i], xs[n], xs[j]);
      }
    }
  }

  // sorted(set(xs)), built one element at a time.
  function Insert(xs: seq<string>, x: string): (r: seq<string>)
    requires Ascending(xs)
    ensures Ascending(r)
    ensures forall y :: y in r <==> y in xs || y == x
  {
    if xs == [] then [x]
    else if x == xs[0] then xs
    else if Less(x, xs[0]) then
      assert forall i :: 0 < i < |xs| ==> Less(xs[0], xs[i]);
      assert forall i :: 0 < i < |xs| ==> Less(x, xs[i]) by {
        forall i | 0 < i < |xs| ensures Less(x, xs[i]) { LessTransitive(x, xs[0], xs[i]); }
      }
      [x] + xs
    else
      LessTotal(x, xs[0]);
      var rest := Insert(xs[1..], x);
      assert forall i :: 0 <= i < |rest| ==> Less(xs[0], rest[i]) by {
        forall i | 0 <= i < |rest| ensures Less(xs[0], rest[i]) { assert rest[i] in rest; }
      }
      [xs[0]] + rest
  }

  // A set of strings has one ascending listing.
  lemma {:induction false} AscendingUnique(xs: seq<string>, ys: seq<string>)
    requires Ascending(xs) && Ascending(ys)
    requires forall s :: s in xs <==> s in ys
    ensures xs == ys
  {
    if xs != [] {
      SharesMember(xs, ys);
    }
    if ys != [] {
      SharesMember(ys, xs);
    }
    if xs != [] {
      FirstIsLeast(xs, ys[0]);
      FirstIsLeast(ys, xs[0]);
      if xs[0] != ys[0] {
        LessTransitive(xs[0], ys[0], xs[0]);
        LessIrreflexive(xs[0]);
      }
      forall s ensures s in xs[1..] <==> s in ys[1..] {
        TailMembers(xs, s);
        TailMembers(ys, s);
      }
      AscendingUnique(xs[1..], ys[1..]);
      assert xs == [xs[0]] + xs[1..] && ys == [ys[0]] + ys[1..];
    }
  }

  lemma SharesMember(xs: seq<string>, ys: seq<string>)
    requires xs != [] && forall s :: s in xs ==> s in ys
    ensures ys != []
  {
    assert xs[0] in ys;
  }

  lemma FirstIsLeast(xs: seq<string>, s: string)
    requires Ascending(xs) && s in xs
    ensures s == xs[0] || Less(xs[0], s)
  {
    var i :| 0 <= i < |xs| && xs[i] == s;
  }

  lemma TailMembers(xs: seq<string>, s: string)
    requires Ascending(xs) && xs != []
    ensures s in xs[1..] <==> s in xs && s != xs[0]
  {
    if s in xs[1..] {
      var i :| 0 <= i < |xs[1..]| && xs[1..][i] == s;
      assert xs[i + 1] == s;
      LessIrreflexive(s);
    }
    if s in xs && s != xs[0] {
      var i :| 0 <= i < |xs| && xs[i] == s;
      assert xs[1..][i - 1] == s;
    }
  }
}
