/** Strings in code-point order, and lists of them sorted without duplicates. */
module SortedStrings {
  predicate Less(a: string, b: string)
    decreases |a|
  {
    if b == "" then false
    else if a == "" then true
    else a[0] < b[0] || (a[0] == b[0] && Less(a[1..], b[1..]))
  }

  lemma {:induction false} LessIsTotal(a: string, b: string)
    ensures a == b || Less(a, b) || Less(b, a)
    ensures !(Less(a, b) && Less(b, a)) && (a == b ==> !Less(a, b))
    decreases |a|
  {
    if a != "" && b != "" {
      LessIsTotal(a[1..], b[1..]);
      assert a[0] == b[0] && a[1..] == b[1..] ==> a == b by { assert a == [a[0]] + a[1..] && b == [b[0]] + b[1..]; }
    }
  }

  lemma {:induction false} LessIsTransitive(a: string, b: string, c: string)
    requires Less(a, b) && Less(b, c)
    ensures Less(a, c)
    decreases |a|
  {
    if a != "" && a[0] == b[0] == c[0] {
      LessIsTransitive(a[1..], b[1..], c[1..]);
    }
  }

  ghost predicate Ascending(s: seq<string>) { forall i, j :: 0 <= i < j < |s| ==> Less(s[i], s[j]) }

  /** Puts `x` where it belongs, once. */
  function Insert(x: string, s: seq<string>): (r: seq<string>)
    requires Ascending(s)
    ensures Ascending(r) && (forall y :: y in r <==> y == x || y in s)
  {
    if s == [] then [x]
    else
      var n := |s| - 1;
      LessIsTotal(s[n], x);
      assert s == s[..n] + [s[n]];
      if s[n] == x then s
      else if Less(s[n], x) then
        assert forall i :: 0 <= i < n ==> Less(s[i], x) by {
          forall i | 0 <= i < n ensures Less(s[i], x) { LessIsTransitive(s[i], s[n], x); }
        }
        s + [x]
      else
        var r := Insert(x, s[..n]);
        assert forall i :: 0 <= i < |r| ==> Less(r[i], s[n]) by {
          forall i | 0 <= i < |r| ensures Less(r[i], s[n]) { assert r[i] in r; }
        }
        r + [s[n]]
  }

  /** Sorted and without duplicates. */
  function Canonical(lines: seq<string>): (r: seq<string>)
    ensures Ascending(r) && (forall y :: y in r <==> y in lines)
  {
    if lines == [] then []
    else
      assert lines == lines[..|lines| - 1] + [lines[|lines| - 1]];
      Insert(lines[|lines| - 1], Canonical(lines[..|lines| - 1]))
  }

  lemma {:induction false} AscendingIsUnique(a: seq<string>, b: seq<string>)
    requires Ascending(a) && Ascending(b) && forall y :: y in a <==> y in b
    ensures a == b
    decreases |a|
  {
    assert a != [] ==> a[0] in a;
    assert b != [] ==> b[0] in b;
    if a != [] && b != [] {
      var m, n := |a| - 1, |b| - 1;
      SameLast(a, b);
      assert a == a[..m] + [a[m]] && b == b[..n] + [b[n]];
      forall y
        ensures y in a[..m] <==> y in b[..n]
      {
        LessIsTotal(a[m], a[m]);
        assert a[m] !in a[..m] && b[n] !in b[..n];
        assert y in a <==> y in a[..m] || y == a[m];
        assert y in b <==> y in b[..n] || y == b[n];
      }
      AscendingIsUnique(a[..m], b[..n]);
    }
  }

  lemma SameLast(a: seq<string>, b: seq<string>)
    requires Ascending(a) && Ascending(b) && a != [] && b != [] && forall y :: y in a <==> y in b
    ensures a[|a| - 1] == b[|b| - 1]
  {
    var x, y := a[|a| - 1], b[|b| - 1];
    assert x in b && y in a;
    var i :| 0 <= i < |b| && b[i] == x;
    var j :| 0 <= j < |a| && a[j] == y;
    LessIsTotal(x, y);
  }

  /** Order and duplicates do not matter; nothing else is forgotten. */
  lemma CanonicalIffSameElements(a: seq<string>, b: seq<string>)
    ensures Canonical(a) == Canonical(b) <==> forall y :: y in a <==> y in b
  {
    if forall y :: y in a <==> y in b {
      AscendingIsUnique(Canonical(a), Canonical(b));
    }
  }
}
