/** The npm advisory graph walk: advisories that a package reaches through its `via` entries, cycles included. */
module AdvisoryWalk {
  import opened Basics
  import opened SortedStrings

  type Package = string

  /** A `via` entry: another package, an advisory, or a value of another type. */
  datatype Source = Via(package: Package) | Advisory(name: Option<string>, url: Option<string>) | Other

  type Graph = map<Package, seq<Source>>

  function Sources(g: Graph, p: Package): seq<Source> { if p in g then g[p] else [] }

  // ------------------------------------------------------------ the walk

  /** Advisories found below `p` by paths that avoid `seen`. */
  function Resolve(g: Graph, p: Package, seen: set<Package>): seq<Source>
    decreases |g.Keys - seen|, 1, 0
  {
    if p in seen || p !in g then []
    else
      Shrinks(g, p, seen);
      ResolveAll(g, g[p], seen + {p})
  }

  function ResolveAll(g: Graph, sources: seq<Source>, seen: set<Package>): seq<Source>
    decreases |g.Keys - seen|, 2, |sources|
  {
    if sources == [] then []
    else
      var last := sources[|sources| - 1];
      ResolveAll(g, sources[..|sources| - 1], seen) +
      (match last
       case Via(p) => Resolve(g, p, seen)
       case Advisory(_, _) => [last]
       case Other => [])
  }

  lemma Shrinks(g: Graph, p: Package, seen: set<Package>)
    requires p in g && p !in seen
    ensures |g.Keys - (seen + {p})| < |g.Keys - seen|
  {
    assert g.Keys - (seen + {p}) == (g.Keys - seen) - {p};
  }

  /** The loop of the source; each recursive call gets its own copy of `seen`. */
  method ResolvedAdvisories(g: Graph, p: Package, seen: set<Package>) returns (resolved: seq<Source>)
    ensures resolved == Resolve(g, p, seen)
    decreases |g.Keys - seen|
  {
    resolved := [];
    if p in seen {
      return;
    }
    var inner := seen + {p};
    var sources := Sources(g, p);
    if p in g {
      Shrinks(g, p, seen);
    }
    var i := 0;
    while i < |sources|
      invariant i <= |sources|
      invariant resolved == ResolveAll(g, sources[..i], inner)
    {
      assert sources[..i + 1][..i] == sources[..i];
      match sources[i] {
        case Via(q) =>
          var deeper := ResolvedAdvisories(g, q, inner);
          resolved := resolved + deeper;
        case Advisory(_, _) => resolved := resolved + [sources[i]];
        case Other =>
      }
      i := i + 1;
    }
    assert sources[..i] == sources;
  }

  // ------------------------------------------------------------ reachability

  predicate Edge(g: Graph, p: Package, q: Package) { Via(q) in Sources(g, p) }

  /** A path of packages from `p`; its last package names the advisory `a` itself. */
  ghost predicate Leads(g: Graph, path: seq<Package>, p: Package, a: Source) {
    && |path| > 0 && path[0] == p && a.Advisory?
    && (forall i :: 0 <= i < |path| - 1 ==> Edge(g, path[i], path[i + 1]))
    && a in Sources(g, path[|path| - 1])
  }

  ghost predicate Reaches(g: Graph, p: Package, a: Source) { exists path :: Leads(g, path, p, a) }

  ghost predicate Avoids(path: seq<Package>, seen: set<Package>) { forall i :: 0 <= i < |path| ==> path[i] !in seen }

  lemma InAll(g: Graph, sources: seq<Source>, seen: set<Package>, s: Source, a: Source)
    requires s in sources && (if s.Via? then a in Resolve(g, s.package, seen) else s == a && a.Advisory?)
    ensures a in ResolveAll(g, sources, seen)
    decreases |sources|
  {
    var n := |sources| - 1;
    if s != sources[n] {
      assert sources == sources[..n] + [sources[n]];
      InAll(g, sources[..n], seen, s, a);
    }
  }

  /** Every path that avoids `seen` is found, also one that runs through a cycle. */
  lemma {:induction false} WalkIsComplete(g: Graph, p: Package, seen: set<Package>, path: seq<Package>, a: Source)
    requires Leads(g, path, p, a) && Avoids(path, seen)
    ensures a in Resolve(g, p, seen)
    decreases |path|
  {
    assert p !in seen;
    assert p in g by {
      if |path| > 1 { assert Edge(g, path[0], path[1]); }
    }
    if k :| 0 < k < |path| && path[k] == p {
      assert forall i :: 0 <= i < |path[k..]| - 1 ==> Edge(g, path[k..][i], path[k..][i + 1]) by {
        forall i | 0 <= i < |path[k..]| - 1
          ensures Edge(g, path[k..][i], path[k..][i + 1])
        {
          assert Edge(g, path[k + i], path[k + i + 1]);
        }
      }
      WalkIsComplete(g, p, seen, path[k..], a);
    } else if |path| == 1 {
      InAll(g, g[p], seen + {p}, a, a);
    } else {
      var rest := path[1..];
      forall i | 0 <= i < |rest| - 1
        ensures Edge(g, rest[i], rest[i + 1])
      {
        assert Edge(g, path[i + 1], path[i + 2]);
      }
      WalkIsComplete(g, path[1], seen + {p}, rest, a);
      assert Edge(g, path[0], path[1]);
      InAll(g, g[p], seen + {p}, Via(path[1]), a);
    }
  }

  /** Where an advisory in the result came from. */
  lemma {:induction false} FromOne(g: Graph, sources: seq<Source>, seen: set<Package>, a: Source) returns (s: Source)
    requires a in ResolveAll(g, sources, seen)
    ensures s in sources && (if s.Via? then a in Resolve(g, s.package, seen) else s == a && a.Advisory?)
    decreases |sources|
  {
    var n := |sources| - 1;
    if a in ResolveAll(g, sources[..n], seen) {
      s := FromOne(g, sources[..n], seen, a);
    } else {
      s := sources[n];
    }
  }

  lemma {:induction false} WalkIsSound(g: Graph, p: Package, seen: set<Package>, a: Source) returns (path: seq<Package>)
    requires a in Resolve(g, p, seen)
    ensures Leads(g, path, p, a)
    decreases |g.Keys - seen|
  {
    Shrinks(g, p, seen);
    var s := FromOne(g, g[p], seen + {p}, a);
    if s.Via? {
      var rest := WalkIsSound(g, s.package, seen + {p}, a);
      path := [p] + rest;
      forall i | 0 <= i < |path| - 1
        ensures Edge(g, path[i], path[i + 1])
      {
        if i > 0 { assert Edge(g, rest[i - 1], rest[i]); }
      }
    } else {
      path := [p];
    }
  }

  /** The walk returns exactly the reachable advisories, on every graph. */
  lemma WalkIffReachable(g: Graph, p: Package, a: Source)
    ensures a in Resolve(g, p, {}) <==> Reaches(g, p, a)
  {
    if a in Resolve(g, p, {}) {
      var path := WalkIsSound(g, p, {}, a);
    }
    if Reaches(g, p, a) {
      var path :| Leads(g, path, p, a);
      WalkIsComplete(g, p, {}, path, a);
    }
  }

  // ------------------------------------------------------------ findings

  datatype Policy = Policy(package: string, expires: nat)

  datatype Problem =
    | Unresolvable(package: Package)
    | Unaccepted(source: Source)
    | OutOfScope(source: Source)
    | Expired(source: Source)

  /** The matching, unexpired exception; or the problem the advisory is. */
  function Judge(exceptions: map<string, Policy>, today: nat, a: Source): Option<Problem>
    requires a.Advisory?
  {
    if a.url.None? || a.url.value !in exceptions then Some(Unaccepted(a))
    else if a.name != Some(exceptions[a.url.value].package) then Some(OutOfScope(a))
    else if today > exceptions[a.url.value].expires then Some(Expired(a))
    else None
  }

  /** A problem of package `p`. */
  ghost predicate IsProblem(g: Graph, exceptions: map<string, Policy>, today: nat, p: Package, problem: Problem) {
    || (problem == Unresolvable(p) && forall a :: !Reaches(g, p, a))
    || (exists a: Source :: a.Advisory? && Reaches(g, p, a) && Judge(exceptions, today, a) == Some(problem))
  }

  lemma {:induction false} OnlyAdvisories(g: Graph, p: Package, seen: set<Package>)
    ensures forall a :: a in Resolve(g, p, seen) ==> a.Advisory?
  {
    forall a | a in Resolve(g, p, seen)
      ensures a.Advisory?
    {
      var path := WalkIsSound(g, p, seen, a);
    }
  }

  /** Collects the problems of one package. */
  method FindingsOf(g: Graph, exceptions: map<string, Policy>, today: nat, p: Package) returns (problems: set<Problem>)
    ensures forall problem :: problem in problems <==> IsProblem(g, exceptions, today, p, problem)
  {
    var advisories := ResolvedAdvisories(g, p, {});
    OnlyAdvisories(g, p, {});
    problems := {};
    if advisories == [] {
      problems := {Unresolvable(p)};
    }
    var i := 0;
    while i < |advisories|
      invariant i <= |advisories|
      invariant forall problem :: problem in problems <==>
        (problem == Unresolvable(p) && advisories == []) ||
        exists j :: 0 <= j < i && Judge(exceptions, today, advisories[j]) == Some(problem)
    {
      assert advisories[i] in Resolve(g, p, {});
      var verdict := Judge(exceptions, today, advisories[i]);
      if verdict.Some? {
        problems := problems + {verdict.value};
      }
      i := i + 1;
    }
    forall a
      ensures a in advisories <==> Reaches(g, p, a)
    {
      WalkIffReachable(g, p, a);
    }
    forall problem
      ensures problem in problems <==> IsProblem(g, exceptions, today, p, problem)
    {
      if j :| 0 <= j < |advisories| && Judge(exceptions, today, advisories[j]) == Some(problem) {
        assert advisories[j] in advisories;
      }
      if a: Source :| a.Advisory? && Reaches(g, p, a) && Judge(exceptions, today, a) == Some(problem) {
        assert a in advisories;
      }
      assert advisories != [] ==> advisories[0] in advisories;
    }
  }

  /** Every listed package reaches an advisory, and every advisory reached has a matching, unexpired exception. */
  ghost predicate AllExcused(g: Graph, exceptions: map<string, Policy>, today: nat) {
    forall p :: p in g ==> Clean(g, exceptions, today, p)
  }

  /** An advisory is excused exactly when it is not judged a problem. */
  ghost predicate Excused(exceptions: map<string, Policy>, today: nat, a: Source) {
    && a.Advisory? && a.url.Some? && a.url.value in exceptions
    && a.name == Some(exceptions[a.url.value].package)
    && today <= exceptions[a.url.value].expires
  }

  lemma JudgedIffNotExcused(exceptions: map<string, Policy>, today: nat, a: Source)
    requires a.Advisory?
    ensures Judge(exceptions, today, a).None? <==> Excused(exceptions, today, a)
  {
  }

  ghost predicate Clean(g: Graph, exceptions: map<string, Policy>, today: nat, p: Package) {
    (exists a :: Reaches(g, p, a)) && (forall a :: Reaches(g, p, a) ==> Excused(exceptions, today, a))
  }

  lemma CleanPackage(g: Graph, exceptions: map<string, Policy>, today: nat, p: Package)
    ensures (forall problem :: !IsProblem(g, exceptions, today, p, problem)) <==> Clean(g, exceptions, today, p)
  {
    hide Excused, Judge, Reaches;
    if forall problem :: !IsProblem(g, exceptions, today, p, problem) {
      assert !IsProblem(g, exceptions, today, p, Unresolvable(p));
      forall a | Reaches(g, p, a)
        ensures Excused(exceptions, today, a)
      {
        ReachesAdvisory(g, p, a);
        JudgedIffNotExcused(exceptions, today, a);
        var verdict := Judge(exceptions, today, a);
        assert verdict.Some? ==> IsProblem(g, exceptions, today, p, verdict.value);
      }
    } else {
      var problem :| IsProblem(g, exceptions, today, p, problem);
      if a: Source :| a.Advisory? && Reaches(g, p, a) && Judge(exceptions, today, a) == Some(problem) {
        JudgedIffNotExcused(exceptions, today, a);
      }
    }
  }

  lemma ReachesAdvisory(g: Graph, p: Package, a: Source)
    requires Reaches(g, p, a)
    ensures a.Advisory?
  {
  }

  /** No problem is left exactly when everything is excused. */
  lemma NoFindingsIffExcused(g: Graph, exceptions: map<string, Policy>, today: nat)
    ensures (forall problem :: !FoundIn(g, exceptions, today, g.Keys, problem)) <==> AllExcused(g, exceptions, today)
  {
    hide IsProblem, Clean;
    forall p: Package
      ensures (forall problem :: !IsProblem(g, exceptions, today, p, problem)) <==> Clean(g, exceptions, today, p)
    {
      CleanPackage(g, exceptions, today, p);
    }
    if !AllExcused(g, exceptions, today) {
      var p :| p in g && !Clean(g, exceptions, today, p);
      var problem :| IsProblem(g, exceptions, today, p, problem);
      assert FoundIn(g, exceptions, today, g.Keys, problem);
    }
  }

  // ------------------------------------------------------------ all packages, and the printed lines

  /** A problem of one of the packages in `done`. */
  ghost predicate FoundIn(g: Graph, exceptions: map<string, Policy>, today: nat, done: set<Package>, problem: Problem) {
    exists p :: p in done && IsProblem(g, exceptions, today, p, problem)
  }

  /** `problems` are exactly the problems of the packages in `done`. */
  ghost predicate Collected(g: Graph, exceptions: map<string, Policy>, today: nat, done: set<Package>,
                            problems: set<Problem>)
  {
    forall problem :: problem in problems <==> FoundIn(g, exceptions, today, done, problem)
  }

  lemma CollectOne(g: Graph, exceptions: map<string, Policy>, today: nat, done: set<Package>, problems: set<Problem>,
                   p: Package, more: set<Problem>)
    requires Collected(g, exceptions, today, done, problems)
    requires forall problem :: problem in more <==> IsProblem(g, exceptions, today, p, problem)
    ensures Collected(g, exceptions, today, done + {p}, problems + more)
  {
    hide IsProblem;
    forall problem
      ensures problem in problems + more <==> FoundIn(g, exceptions, today, done + {p}, problem)
    {
      if FoundIn(g, exceptions, today, done + {p}, problem) {
        var q :| q in done + {p} && IsProblem(g, exceptions, today, q, problem);
        assert q != p ==> FoundIn(g, exceptions, today, done, problem);
      }
      if problem in problems {
        assert FoundIn(g, exceptions, today, done, problem);
      }
    }
  }

  /** The problems of every listed package, in whatever order they are visited. */
  method Collect(g: Graph, exceptions: map<string, Policy>, today: nat) returns (problems: set<Problem>)
    ensures Collected(g, exceptions, today, g.Keys, problems)
  {
    hide IsProblem;
    problems := {};
    var left := g.Keys;
    assert g.Keys - left == {};
    while left != {}
      invariant left <= g.Keys && Collected(g, exceptions, today, g.Keys - left, problems)
      decreases |left|
    {
      hide Collected;
      var p :| p in left;
      var more := FindingsOf(g, exceptions, today, p);
      CollectOne(g, exceptions, today, g.Keys - left, problems, p, more);
      assert (g.Keys - left) + {p} == g.Keys - (left - {p});
      left, problems := left - {p}, problems + more;
    }
    assert g.Keys - left == g.Keys;
  }

  function Text(s: Option<string>): string { if s.Some? then s.value else "None" }

  /** The printed line; `iso` formats a date. */
  function Line(exceptions: map<string, Policy>, iso: nat -> string, problem: Problem): string {
    match problem
    case Unresolvable(p) => p + ": vulnerability has no resolvable advisory"
    case Unaccepted(a) => Subject(a) + "unaccepted advisory " + Url(a)
    case OutOfScope(a) =>
      Subject(a) + "advisory " + Url(a) + " exception is scoped to " + PolicyOf(exceptions, a).package
    case Expired(a) =>
      Subject(a) + "advisory " + Url(a) + " exception expired " + iso(PolicyOf(exceptions, a).expires)
  }

  function Subject(a: Source): string { if a.Advisory? then Text(a.name) + ": " else "" }

  function Url(a: Source): string { if a.Advisory? then Text(a.url) else "" }

  function PolicyOf(exceptions: map<string, Policy>, a: Source): Policy {
    if a.Advisory? && a.url.Some? && a.url.value in exceptions then exceptions[a.url.value] else Policy("", 0)
  }

  /** Prints a set of problems as sorted lines without duplicates. */
  method Printed(exceptions: map<string, Policy>, iso: nat -> string, problems: set<Problem>)
    returns (lines: seq<string>)
    ensures Ascending(lines)
    ensures forall line :: line in lines <==>
              exists problem :: problem in problems && Line(exceptions, iso, problem) == line
  {
    hide Line;
    lines := [];
    var left := problems;
    while left != {}
      invariant left <= problems && Ascending(lines)
      invariant forall line :: line in lines <==>
        exists problem :: problem in problems - left && Line(exceptions, iso, problem) == line
      decreases |left|
    {
      var next :| next in left;
      lines := Insert(Line(exceptions, iso, next), lines);
      assert problems - (left - {next}) == (problems - left) + {next};
      left := left - {next};
    }
    assert problems - left == problems;
  }

  /** Everything that keeps the gate shut: the sorted lines of exactly the problems there are. */
  method Findings(g: Graph, exceptions: map<string, Policy>, today: nat, iso: nat -> string)
    returns (lines: seq<string>)
    ensures Ascending(lines)
    ensures forall line :: line in lines <==>
              exists problem :: FoundIn(g, exceptions, today, g.Keys, problem) && Line(exceptions, iso, problem) == line
    ensures lines == [] <==> AllExcused(g, exceptions, today)
  {
    hide FoundIn, AllExcused, Line;
    var problems := Collect(g, exceptions, today);
    lines := Printed(exceptions, iso, problems);
    NoFindingsIffExcused(g, exceptions, today);
    if lines == [] {
      forall problem
        ensures !FoundIn(g, exceptions, today, g.Keys, problem)
      {
        assert Line(exceptions, iso, problem) !in lines;
      }
    } else {
      assert lines[0] in lines;
    }
  }
}
