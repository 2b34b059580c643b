/** Sorting as the scheduler relies on it: the (score, id) order, with ids compared byte by
    byte, and a stable insertion sort standing for the library's. */
module Ranking {
  predicate StringLe(a: string, b: string) {
    a == [] || (b != [] && (a[0] < b[0] || (a[0] == b[0] && StringLe(a[1..], b[1..]))))
  }

  /** Byte by byte: a prefix comes first, and otherwise the first difference decides. */
  lemma {:induction false} StringLeExactly(a: string, b: string)
    ensures StringLe(a, b) <==> a <= b || exists i :: 0 <= i < |a| && i < |b| && a[..i] == b[..i] && a[i] < b[i]
  {
    if a != [] && b != [] && a[0] == b[0] {
      StringLeExactly(a[1..], b[1..]);
      if a[1..] <= b[1..] {
        assert a == [a[0]] + a[1..] && b == [b[0]] + b[1..];
      }
      if i :| 0 <= i < |a[1..]| && i < |b[1..]| && a[1..][..i] == b[1..][..i] && a[1..][i] < b[1..][i] {
        assert a[..i + 1] == [a[0]] + a[1..][..i] && b[..i + 1] == [b[0]] + b[1..][..i];
        assert a[i + 1] < b[i + 1];
      }
      if i :| 0 <= i < |a| && i < |b| && a[..i] == b[..i] && a[i] < b[i] {
        assert i > 0;
        assert a[1..][..i - 1] == a[..i][1..] && b[1..][..i - 1] == b[..i][1..];
        assert a[1..][i - 1] < b[1..][i - 1];
      }
    } else if a != [] && b != [] && a[0] < b[0] {
      assert a[..0] == b[..0];
    }
  }

  lemma {:induction false} StringLeTotal(a: string, b: string)
    ensures StringLe(a, b) || StringLe(b, a)
    ensures StringLe(a, b) && StringLe(b, a) ==> a == b
  {
    if a != [] && b != [] && a[0] == b[0] {
      StringLeTotal(a[1..], b[1..]);
      assert a == [a[0]] + a[1..] && b == [b[0]] + b[1..];
    }
  }

  lemma {:induction false} StringLeTransitive(a: string, b: string, c: string)
    requires StringLe(a, b) && StringLe(b, c)
    ensures StringLe(a, c)
  {
    if a != [] && a[0] == b[0] == c[0] {
      StringLeTransitive(a[1..], b[1..], c[1..]);
    }
  }

  /** What is ranked: a score, an id to break ties, and the place in the input. */
  datatype Entry = Entry(score: real, id: string, index: nat)

  predicate Le(a: Entry, b: Entry) {
    a.score < b.score || (a.score == b.score && StringLe(a.id, b.id))
  }

  lemma LeTotal(a: Entry, b: Entry)
    ensures Le(a, b) || Le(b, a)
    ensures Le(a, b) && Le(b, a) ==> a.score == b.score && a.id == b.id
  {
    StringLeTotal(a.id, b.id);
  }

  lemma LeTransitive(a: Entry, b: Entry, c: Entry)
    requires Le(a, b) && Le(b, c)
    ensures Le(a, c)
  {
    if a.score == b.score == c.score {
      StringLeTransitive(a.id, b.id, c.id);
    }
  }

  predicate Sorted(s: seq<Entry>) {
    forall i, j :: 0 <= i < j < |s| ==> Le(s[i], s[j])
  }

  function Insert(e: Entry, s: seq<Entry>): (r: seq<Entry>)
    ensures multiset(r) == multiset(s) + multiset{e}
  {
    if s == [] then [e]
    else if Le(s[|s| - 1], e) then s + [e]
    else
      assert s == s[..|s| - 1] + [s[|s| - 1]];
      Insert(e, s[..|s| - 1]) + [s[|s| - 1]]
  }

  function Sort(s: seq<Entry>): (r: seq<Entry>)
    ensures multiset(r) == multiset(s)
  {
    if s == [] then []
    else
      assert s == s[..|s| - 1] + [s[|s| - 1]];
      Insert(s[|s| - 1], Sort(s[..|s| - 1]))
  }

  lemma {:induction false} InsertSorts(e: Entry, s: seq<Entry>)
    requires Sorted(s)
    ensures Sorted(Insert(e, s))
  {
    if s != [] {
      var n := |s| - 1;
      var last := s[n];
      if Le(last, e) {
        forall i | 0 <= i <= n ensures Le(s[i], e) {
          if i < n { LeTransitive(s[i], last, e); }
        }
      } else {
        InsertSorts(e, s[..n]);
        LeTotal(last, e);
        var r := Insert(e, s[..n]);
        forall i | 0 <= i < |r| ensures Le(r[i], last) {
          assert r[i] in multiset(r);
          assert r[i] == e || r[i] in multiset(s[..n]);
          if r[i] != e {
            assert r[i] in s[..n];
          }
        }
      }
    }
  }

  lemma {:induction false} SortSorts(s: seq<Entry>)
    ensures Sorted(Sort(s)) && |Sort(s)| == |s|
  {
    if s != [] {
      SortSorts(s[..|s| - 1]);
      InsertSorts(s[|s| - 1], Sort(s[..|s| - 1]));
    }
    assert |multiset(Sort(s))| == |multiset(s)|;
  }

  /** Nothing in s ranks before e. */
  predicate IsMin(e: Entry, s: seq<Entry>) {
    e in s && forall i :: 0 <= i < |s| ==> Le(e, s[i])
  }

  lemma HeadIsMin(s: seq<Entry>)
    requires s != []
    ensures |Sort(s)| == |s| && IsMin(Sort(s)[0], s)
  {
    SortSorts(s);
    var r := Sort(s);
    assert r[0] in multiset(r);
    assert r[0] in multiset(s);
    forall i | 0 <= i < |s| ensures Le(r[0], s[i]) {
      assert s[i] in multiset(s);
      assert s[i] in multiset(r);
      var k :| 0 <= k < |r| && r[k] == s[i];
      LeTotal(r[0], r[0]);
    }
  }
}
