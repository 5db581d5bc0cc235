/** Strings in the order Go compares them, and lists sorted by it. */
module StrictOrder {

  /** Lexicographic order by code point, which is byte order on valid UTF-8. */
  predicate Less(a: string, b: string)
  {
    b != "" && (a == "" || a[0] < b[0] || (a[0] == b[0] && Less(a[1..], b[1..])))
  }

  lemma {:induction false} LessIsIrreflexive(a: string)
    ensures !Less(a, a)
  {
    if a != "" {
      LessIsIrreflexive(a[1..]);
    }
  }

  lemma {:induction false} LessIsTransitive(a: string, b: string, c: string)
    requires Less(a, b) && Less(b, c)
    ensures Less(a, c)
  {
    if a != "" && a[0] == b[0] == c[0] {
      LessIsTransitive(a[1..], b[1..], c[1..]);
    }
  }

  lemma {:induction false} LessIsTotal(a: string, b: string)
    ensures a == b || Less(a, b) || Less(b, a)
  {
    if a != "" && b != "" && a[0] == b[0] {
      LessIsTotal(a[1..], b[1..]);
      if a[1..] == b[1..] {
        assert a == [a[0]] + a[1..] && b == [b[0]] + b[1..];
      }
    }
  }

  /** Each element is less than the next. */
  predicate Increasing(s: seq<string>)
  {
    forall i :: 0 < i < |s| ==> Less(s[i - 1], s[i])
  }

  lemma {:induction false} IncreasingApart(s: seq<string>, i: nat, j: nat)
    requires Increasing(s) && i < j < |s|
    ensures Less(s[i], s[j]) && s[i] != s[j]
    decreases j - i
  {
    if i + 1 < j {
      IncreasingApart(s, i, j - 1);
      LessIsTransitive(s[i], s[j - 1], s[j]);
    }
    LessIsIrreflexive(s[i]);
  }

  function Elements(s: seq<string>): set<string>
  {
    set x | x in s
  }

  lemma NoElements(s: seq<string>)
    ensures Elements(s) == {} <==> s == []
  {
    if s != [] {
      assert s[0] in Elements(s);
    }
  }

  lemma LastIsGreatest(s: seq<string>, x: string)
    requires Increasing(s) && s != [] && x in s && x != s[|s| - 1]
    ensures Less(x, s[|s| - 1])
  {
    var i :| 0 <= i < |s| && s[i] == x;
    IncreasingApart(s, i, |s| - 1);
  }

  lemma ElementsOfFront(s: seq<string>)
    requires Increasing(s) && s != []
    ensures Increasing(s[..|s| - 1]) && Elements(s[..|s| - 1]) == Elements(s) - {s[|s| - 1]}
  {
    var front, last := s[..|s| - 1], s[|s| - 1];
    assert s == front + [last];
    if last in front {
      var i :| 0 <= i < |front| && front[i] == last;
      IncreasingApart(s, i, |s| - 1);
    }
  }

  /** Two strictly sorted lists with the same elements are the same list. */
  lemma {:induction false} SameElementsSameList(a: seq<string>, b: seq<string>)
    requires Increasing(a) && Increasing(b) && Elements(a) == Elements(b)
    ensures a == b
    decreases |a|
  {
    NoElements(a);
    NoElements(b);
    if a != [] {
      var x, y := a[|a| - 1], b[|b| - 1];
      assert x in Elements(b) && y in Elements(a);
      if x != y {
        LastIsGreatest(b, x);
        LastIsGreatest(a, y);
        LessIsTransitive(x, y, x);
        LessIsIrreflexive(x);
      }
      ElementsOfFront(a);
      ElementsOfFront(b);
      SameElementsSameList(a[..|a| - 1], b[..|b| - 1]);
      assert a == a[..|a| - 1] + [x] && b == b[..|b| - 1] + [y];
    }
  }

  // ---------------------------------------------------------------- sorting

  predicate NoRepeats(s: seq<string>)
  {
    forall i, j :: 0 <= i < j < |s| ==> s[i] != s[j]
  }

  function Insert(s: seq<string>, x: string): (r: seq<string>)
    ensures multiset(r) == multiset(s) + multiset{x}
  {
    if s == [] then [x]
    else
      var front, last := s[..|s| - 1], s[|s| - 1];
      assert s == front + [last];
      if Less(x, last) then Insert(front, x) + [last] else s + [x]
  }

  /** `sort.Strings`. */
  function SortStrings(s: seq<string>): (r: seq<string>)
    ensures multiset(r) == multiset(s)
  {
    if s == [] then []
    else
      assert s == s[..|s| - 1] + [s[|s| - 1]];
      Insert(SortStrings(s[..|s| - 1]), s[|s| - 1])
  }

  lemma InsertElements(s: seq<string>, x: string)
    ensures forall y :: y in Insert(s, x) <==> y in s || y == x
  {
    forall y ensures y in Insert(s, x) <==> y in s || y == x {
      assert y in Insert(s, x) <==> y in multiset(Insert(s, x));
    }
  }

  lemma {:induction false} InsertKeepsIncreasing(s: seq<string>, x: string)
    requires Increasing(s) && x !in s
    ensures Increasing(Insert(s, x))
  {
    hide Less;
    if s != [] {
      var front, last := s[..|s| - 1], s[|s| - 1];
      LessIsTotal(x, last);
      if Less(x, last) {
        ElementsOfFront(s);
        InsertKeepsIncreasing(front, x);
        InsertElements(front, x);
        var r := Insert(front, x);
        assert x in r;
        var top := r[|r| - 1];
        assert Less(top, last) by {
          if top != x {
            assert top in Elements(front);
            LastIsGreatest(s, top);
          }
        }
      }
    }
  }

  lemma {:induction false} SortedIsIncreasing(s: seq<string>)
    requires NoRepeats(s)
    ensures Increasing(SortStrings(s)) && Elements(SortStrings(s)) == Elements(s)
  {
    forall y ensures y in SortStrings(s) <==> y in s {
      assert y in SortStrings(s) <==> y in multiset(SortStrings(s));
    }
    if s != [] {
      var front, last := s[..|s| - 1], s[|s| - 1];
      SortedIsIncreasing(front);
      assert last !in Elements(SortStrings(front));
      InsertKeepsIncreasing(SortStrings(front), last);
      InsertElements(SortStrings(front), last);
    }
  }

  /** Sorting what is already strictly sorted changes nothing. */
  lemma SortingSortedIsIdentity(s: seq<string>)
    requires Increasing(s)
    ensures SortStrings(s) == s
  {
    forall i, j | 0 <= i < j < |s| ensures s[i] != s[j] {
      IncreasingApart(s, i, j);
    }
    SortedIsIncreasing(s);
    SameElementsSameList(SortStrings(s), s);
  }
}
