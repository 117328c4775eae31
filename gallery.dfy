/**
 * The recordings list of the gallery tab in FrontEnd/main_gui.py: the names
 * in the videos directory that end in ".avi", newest first, that is in
 * descending order of Python's string comparison (code point by code
 * point, a proper prefix first).
 */
module Gallery {
  import opened Vision

  /** Python's `a <= b` on strings. */
  predicate LessEq(a: string, b: string)
  {
    a == [] || (b != [] && (a[0] < b[0] || (a[0] == b[0] && LessEq(a[1..], b[1..]))))
  }

  lemma {:induction false} LessEqTotal(a: string, b: string)
    ensures LessEq(a, b) || LessEq(b, a)
  {
    if a != [] && b != [] && a[0] == b[0] {
      LessEqTotal(a[1..], b[1..]);
    }
  }

  lemma {:induction false} LessEqTransitive(a: string, b: string, c: string)
    requires LessEq(a, b) && LessEq(b, c)
    ensures LessEq(a, c)
  {
    if a != [] && b != [] && c != [] && a[0] == b[0] && b[0] == c[0] {
      LessEqTransitive(a[1..], b[1..], c[1..]);
    }
  }

  lemma {:induction false} LessEqAntisymmetric(a: string, b: string)
    requires LessEq(a, b) && LessEq(b, a)
    ensures a == b
  {
    if a != [] && b != [] {
      LessEqAntisymmetric(a[1..], b[1..]);
      assert a == [a[0]] + a[1..] && b == [b[0]] + b[1..];
    }
  }

  /** Every name is at most each one before it. */
  predicate Descending(s: seq<string>)
  {
    forall i, j :: 0 <= i < j < |s| ==> LessEq(s[j], s[i])
  }

  /** The names ending in ".avi", in listing order. */
  function AviFiles(names: seq<string>): (r: seq<string>)
    ensures forall f :: f in r <==> f in names && EndsWith(f, ".avi")
    ensures forall f :: f in r ==> multiset(r)[f] == multiset(names)[f]
  {
    if names == [] then []
    else
      var init := names[..|names| - 1];
      var f := names[|names| - 1];
      assert names == init + [f];
      AviFiles(init) + if EndsWith(f, ".avi") then [f] else []
  }

  /** Put a name into a descending list. */
  function Insert(x: string, s: seq<string>): (r: seq<string>)
    ensures multiset(r) == multiset(s) + multiset{x}
  {
    if s == [] then [x]
    else if LessEq(s[0], x) then [x] + s
    else
      assert s == [s[0]] + s[1..];
      [s[0]] + Insert(x, s[1..])
  }

  function SortDescending(s: seq<string>): (r: seq<string>)
    ensures multiset(r) == multiset(s)
  {
    if s == [] then []
    else
      assert s == [s[0]] + s[1..];
      Insert(s[0], SortDescending(s[1..]))
  }

  lemma {:induction false} InsertDescending(x: string, s: seq<string>)
    requires Descending(s)
    ensures Descending(Insert(x, s))
  {
    if s != [] {
      if LessEq(s[0], x) {
        forall j | 0 < j < |s| + 1
          ensures LessEq(([x] + s)[j], x)
        {
          if j > 1 {
            LessEqTransitive(s[j - 1], s[0], x);
          }
        }
      } else {
        LessEqTotal(s[0], x);
        var tail := s[1..];
        TailDescending(s);
        InsertDescending(x, tail);
        var r := Insert(x, tail);
        forall y | y in r
          ensures LessEq(y, s[0])
        {
          assert y in multiset(r);
          if y != x {
            assert y in multiset(tail);
            var j :| 0 <= j < |tail| && tail[j] == y;
            assert s[j + 1] == y;
          }
        }
        forall i, j | 0 <= i < j < |r| + 1
          ensures LessEq(([s[0]] + r)[j], ([s[0]] + r)[i])
        {
          if i == 0 {
            assert ([s[0]] + r)[j] == r[j - 1];
          } else {
            assert ([s[0]] + r)[j] == r[j - 1] && ([s[0]] + r)[i] == r[i - 1];
          }
        }
      }
    }
  }

  lemma {:induction false} SortDescendingSorted(s: seq<string>)
    ensures Descending(SortDescending(s))
  {
    if s != [] {
      SortDescendingSorted(s[1..]);
      InsertDescending(s[0], SortDescending(s[1..]));
    }
  }

  lemma TailDescending(s: seq<string>)
    requires s != [] && Descending(s)
    ensures Descending(s[1..])
  {
    forall p, q | 0 <= p < q < |s[1..]|
      ensures LessEq(s[1..][q], s[1..][p])
    {
      assert s[1..][q] == s[q + 1] && s[1..][p] == s[p + 1];
    }
  }

  /** The first name of a descending list is at least every name in it. */
  lemma HeadIsGreatest(s: seq<string>, x: string)
    requires Descending(s) && x in multiset(s)
    ensures x == s[0] || LessEq(x, s[0])
  {
    var k :| 0 <= k < |s| && s[k] == x;
  }

  lemma MultisetTail(s: seq<string>)
    requires s != []
    ensures multiset(s[1..]) == multiset(s) - multiset{s[0]}
  {
    assert s == [s[0]] + s[1..];
  }

  /** A descending list is determined by its names: the order is Python's `sorted(..., reverse=True)`. */
  lemma {:induction false} DescendingUnique(a: seq<string>, b: seq<string>)
    requires Descending(a) && Descending(b) && multiset(a) == multiset(b)
    ensures a == b
  {
    if a == [] {
      assert |b| == |multiset(b)| == 0;
    } else {
      assert |b| == |multiset(b)| == |multiset(a)| == |a|;
      HeadIsGreatest(b, a[0]);
      HeadIsGreatest(a, b[0]);
      if a[0] != b[0] {
        LessEqAntisymmetric(a[0], b[0]);
      }
      MultisetTail(a);
      MultisetTail(b);
      TailDescending(a);
      TailDescending(b);
      DescendingUnique(a[1..], b[1..]);
      assert a == [a[0]] + a[1..] && b == [b[0]] + b[1..];
    }
  }

  /**
   * `populate_videos`: nothing when the directory does not exist, otherwise
   * the ".avi" names of the listing sorted in descending order.
   */
  function PopulateVideos(directoryExists: bool, listing: seq<string>): seq<string>
  {
    if directoryExists then SortDescending(AviFiles(listing)) else []
  }

  /**
   * The list holds exactly the ".avi" names of the listing, each as often as
   * it is listed, in descending order; any other descending arrangement of
   * the same names is this one.
   */
  lemma PopulateVideosRule(directoryExists: bool, listing: seq<string>)
    ensures !directoryExists ==> PopulateVideos(directoryExists, listing) == []
    ensures directoryExists ==>
      var r := PopulateVideos(directoryExists, listing);
      && Descending(r)
      && (forall f :: f in r <==> f in listing && EndsWith(f, ".avi"))
      && multiset(r) == multiset(AviFiles(listing))
      && (forall other :: Descending(other) && multiset(other) == multiset(AviFiles(listing)) ==> other == r)
  {
    if directoryExists {
      var r := PopulateVideos(directoryExists, listing);
      SortDescendingSorted(AviFiles(listing));
      forall f
        ensures f in r <==> f in AviFiles(listing)
      {
        assert f in r <==> f in multiset(r);
      }
      forall other | Descending(other) && multiset(other) == multiset(AviFiles(listing))
        ensures other == r
      {
        DescendingUnique(other, r);
      }
    }
  }
}
