/** Resolution of environment imports: recursion with a visited set and a depth limit, on any import graph. */
module ImportResolver {
  import opened Wrappers

  const MAX_IMPORT_DEPTH := 50

  datatype Name = Name(project: string, env: string)

  /** The stored environments and how their bodies list imports. */
  datatype Graph = Graph(bodies: map<Name, string>, extract: string -> seq<string>)

  /** Where a list of imports is read: a body, and the project its short references mean. */
  datatype Context = Context(project: string, body: string)

  function Slash(s: string): (i: nat)
    ensures i <= |s|
    ensures forall j :: 0 <= j < i ==> s[j] != '/'
    ensures i < |s| ==> s[i] == '/'
  {
    if s == [] then 0
    else
      var i := Slash(s[..|s| - 1]);
      if i < |s| - 1 then i else if s[|s| - 1] == '/' then |s| - 1 else |s|
  }

  function Target(project: string, reference: string): Name {
    var i := Slash(reference);
    if i < |reference| then Name(reference[..i], reference[i + 1..]) else Name(project, reference)
  }

  function Refs(g: Graph, c: Context): seq<Name> {
    var listed := g.extract(c.body);
    seq(|listed|, i requires 0 <= i < |listed| => Target(c.project, listed[i]))
  }

  function At(g: Graph, n: Name): Context
    requires n in g.bodies
  {
    Context(n.project, g.bodies[n])
  }

  function Fqn(n: Name): string {
    n.project + "/" + n.env
  }

  // --------------------------------------------------------------------- the code

  /** What a resolution answers: the imported bodies by full name, or a rejection. */
  type Answer = Option<map<string, string>>

  function Resolve(g: Graph, c: Context, visited: set<string>, depth: nat): Answer
    decreases MAX_IMPORT_DEPTH + 1 - depth, 1, 0
  {
    if depth > MAX_IMPORT_DEPTH then None
    else ResolveFirst(g, Refs(g, c), |Refs(g, c)|, visited, depth)
  }

  /** The answers of the first `k` references together. */
  function ResolveFirst(g: Graph, refs: seq<Name>, k: nat, visited: set<string>, depth: nat): Answer
    requires k <= |refs| && depth <= MAX_IMPORT_DEPTH
    decreases MAX_IMPORT_DEPTH + 1 - depth, 0, k
  {
    if k == 0 then Some(map[])
    else
      var before := ResolveFirst(g, refs, k - 1, visited, depth);
      var child := ResolveOne(g, refs[k - 1], visited, depth);
      if before.Some? && child.Some? then Some(before.value + child.value) else None
  }

  function ResolveOne(g: Graph, n: Name, visited: set<string>, depth: nat): Answer
    requires depth <= MAX_IMPORT_DEPTH
    decreases MAX_IMPORT_DEPTH + 1 - depth, 0, 0
  {
    if Fqn(n) in visited || n !in g.bodies then None
    else
      var child := Resolve(g, At(g, n), visited + {Fqn(n)}, depth + 1);
      if child.Some? then Some(child.value[Fqn(n) := g.bodies[n]]) else None
  }

  method ResolveImports(g: Graph, project: string, body: string, visited: set<string>, depth: nat)
    returns (r: Answer)
    ensures r == Resolve(g, Context(project, body), visited, depth)
    decreases MAX_IMPORT_DEPTH + 1 - depth
  {
    if depth > MAX_IMPORT_DEPTH { return None; }
    var refs := Refs(g, Context(project, body));
    var result: map<string, string> := map[];
    var failed := false;
    for k := 0 to |refs|
      invariant ResolveFirst(g, refs, k, visited, depth) == if failed then None else Some(result)
    {
      var n := refs[k];
      var fqn := Fqn(n);
      if fqn in visited || n !in g.bodies {
        failed := true;
      } else {
        var children := ResolveImports(g, n.project, g.bodies[n], visited + {fqn}, depth + 1);
        if children.None? {
          failed := true;
        } else {
          ghost var before := result;
          result := result + children.value;
          result := result[fqn := g.bodies[n]];
          assert result == before + children.value[fqn := g.bodies[n]];
        }
      }
    }
    return if failed then None else Some(result);
  }

  // --------------------------------------------------------------------- import chains

  /** Each name is listed where the previous one was found. */
  predicate IsChain(g: Graph, c: Context, chain: seq<Name>)
    decreases |chain|
  {
    chain == []
    || (chain[0] in Refs(g, c)
        && (|chain| > 1 ==> chain[0] in g.bodies && IsChain(g, At(g, chain[0]), chain[1..])))
  }

  predicate AllExist(g: Graph, chain: seq<Name>) {
    forall n <- chain :: n in g.bodies
  }

  /** Every reachable import exists, and no chain of imports has more than `limit` edges. */
  ghost predicate Bounded(g: Graph, c: Context, limit: nat) {
    forall chain :: IsChain(g, c, chain) ==> AllExist(g, chain) && |chain| <= limit
  }

  ghost predicate Reaches(g: Graph, c: Context, n: Name) {
    exists chain :: IsChain(g, c, chain) && chain != [] && chain[|chain| - 1] == n
  }

  predicate NoSlash(s: string) {
    forall i :: 0 <= i < |s| ==> s[i] != '/'
  }

  /** Full names tell names apart when projects hold no slash. */
  lemma FqnIsInjective(a: Name, b: Name)
    requires NoSlash(a.project) && NoSlash(b.project) && Fqn(a) == Fqn(b)
    ensures a == b
  {
    var s := Fqn(a);
    assert s[|a.project|] == '/' && s[|b.project|] == '/';
    assert |a.project| == |b.project|;
    assert a.project == s[..|a.project|] && b.project == s[..|b.project|];
    assert a.env == s[|a.project| + 1..] && b.env == s[|b.project| + 1..];
  }

  lemma RefsHaveNoSlash(g: Graph, c: Context, n: Name)
    requires NoSlash(c.project) && n in Refs(g, c)
    ensures NoSlash(n.project)
  {
  }

  lemma Cons(g: Graph, c: Context, n: Name, rest: seq<Name>)
    requires n in Refs(g, c) && n in g.bodies && IsChain(g, At(g, n), rest)
    ensures IsChain(g, c, [n] + rest)
  {
    assert ([n] + rest)[1..] == rest;
  }

  // --------------------------------------------------------------------- success is sound

  /** An answer lists exactly the environments reached, with their bodies. */
  ghost predicate Lists(g: Graph, c: Context, m: map<string, string>) {
    && (forall k <- m :: exists n :: Reaches(g, c, n) && Fqn(n) == k)
    && (forall n :: Reaches(g, c, n) ==> n in g.bodies && Fqn(n) in m && m[Fqn(n)] == g.bodies[n])
  }

  lemma {:induction false} AnswersAreBounded(g: Graph, c: Context, visited: set<string>, depth: nat, chain: seq<Name>)
    requires Resolve(g, c, visited, depth).Some? && IsChain(g, c, chain)
    ensures AllExist(g, chain) && depth + |chain| <= MAX_IMPORT_DEPTH
    decreases |chain|
  {
    if chain != [] {
      var refs := Refs(g, c);
      var i :| 0 <= i < |refs| && refs[i] == chain[0];
      FirstOnes(g, refs, |refs|, visited, depth, i);
      AnswersAreBounded(g, At(g, chain[0]), visited + {Fqn(chain[0])}, depth + 1, chain[1..]);
      assert chain == [chain[0]] + chain[1..];
    }
  }

  lemma {:induction false} FirstOnes(g: Graph, refs: seq<Name>, k: nat, visited: set<string>, depth: nat, i: nat)
    requires i < k <= |refs| && depth <= MAX_IMPORT_DEPTH && ResolveFirst(g, refs, k, visited, depth).Some?
    ensures ResolveOne(g, refs[i], visited, depth).Some?
    ensures forall key <- ResolveOne(g, refs[i], visited, depth).value ::
      key in ResolveFirst(g, refs, k, visited, depth).value
  {
    if i < k - 1 { FirstOnes(g, refs, k - 1, visited, depth, i); }
  }

  /** A key of the first answers is a key of one of them, with its value. */
  lemma {:induction false} KeyFromOne(g: Graph, refs: seq<Name>, k: nat, visited: set<string>, depth: nat, key: string)
    returns (i: nat)
    requires k <= |refs| && depth <= MAX_IMPORT_DEPTH && ResolveFirst(g, refs, k, visited, depth).Some?
    requires key in ResolveFirst(g, refs, k, visited, depth).value
    ensures i < k && ResolveOne(g, refs[i], visited, depth).Some?
    ensures key in ResolveOne(g, refs[i], visited, depth).value
    ensures ResolveOne(g, refs[i], visited, depth).value[key] == ResolveFirst(g, refs, k, visited, depth).value[key]
  {
    var child := ResolveOne(g, refs[k - 1], visited, depth);
    if key in child.value { i := k - 1; }
    else { i := KeyFromOne(g, refs, k - 1, visited, depth, key); }
  }

  /** Every key of an answer is the full name of an environment reached, with its body. */
  lemma {:induction false} KeysAreReached(g: Graph, c: Context, visited: set<string>, depth: nat, key: string)
    returns (chain: seq<Name>)
    requires Resolve(g, c, visited, depth).Some? && key in Resolve(g, c, visited, depth).value
    ensures IsChain(g, c, chain) && chain != [] && chain[|chain| - 1] in g.bodies
    ensures Fqn(chain[|chain| - 1]) == key
    ensures Resolve(g, c, visited, depth).value[key] == g.bodies[chain[|chain| - 1]]
    decreases MAX_IMPORT_DEPTH + 1 - depth
  {
    var refs := Refs(g, c);
    var i := KeyFromOne(g, refs, |refs|, visited, depth, key);
    var n := refs[i];
    if key == Fqn(n) {
      chain := [n];
    } else {
      var rest := KeysAreReached(g, At(g, n), visited + {Fqn(n)}, depth + 1, key);
      Cons(g, c, n, rest);
      chain := [n] + rest;
    }
  }

  /** Every environment reached is listed. */
  lemma {:induction false} ReachedAreKeys(g: Graph, c: Context, visited: set<string>, depth: nat, chain: seq<Name>)
    requires Resolve(g, c, visited, depth).Some? && IsChain(g, c, chain) && chain != []
    ensures Fqn(chain[|chain| - 1]) in Resolve(g, c, visited, depth).value
    decreases |chain|
  {
    var refs := Refs(g, c);
    var i :| 0 <= i < |refs| && refs[i] == chain[0];
    FirstOnes(g, refs, |refs|, visited, depth, i);
    if |chain| > 1 {
      ReachedAreKeys(g, At(g, chain[0]), visited + {Fqn(chain[0])}, depth + 1, chain[1..]);
    }
  }

  lemma {:induction false} ChainProjects(g: Graph, c: Context, chain: seq<Name>)
    requires NoSlash(c.project) && IsChain(g, c, chain)
    ensures forall n <- chain :: NoSlash(n.project)
    decreases |chain|
  {
    if chain != [] {
      RefsHaveNoSlash(g, c, chain[0]);
      if |chain| > 1 { ChainProjects(g, At(g, chain[0]), chain[1..]); }
      assert chain == [chain[0]] + chain[1..];
    }
  }

  lemma AnswerLists(g: Graph, c: Context, visited: set<string>, depth: nat)
    requires NoSlash(c.project) && Resolve(g, c, visited, depth).Some?
    ensures Lists(g, c, Resolve(g, c, visited, depth).value)
  {
    hide Resolve, IsChain, NoSlash;
    var m := Resolve(g, c, visited, depth).value;
    forall k | k in m ensures exists n :: Reaches(g, c, n) && Fqn(n) == k {
      var chain := KeysAreReached(g, c, visited, depth, k);
      assert Reaches(g, c, chain[|chain| - 1]);
    }
    forall n | Reaches(g, c, n) ensures n in g.bodies && Fqn(n) in m && m[Fqn(n)] == g.bodies[n] {
      var chain :| IsChain(g, c, chain) && chain != [] && chain[|chain| - 1] == n;
      ReachedAreKeys(g, c, visited, depth, chain);
      AnswersAreBounded(g, c, visited, depth, chain);
      assert n in chain;
      var other := KeysAreReached(g, c, visited, depth, Fqn(n));
      ChainProjects(g, c, chain);
      ChainProjects(g, c, other);
      assert other[|other| - 1] in other;
      FqnIsInjective(n, other[|other| - 1]);
    }
  }

  // --------------------------------------------------------------------- cycles

  lemma {:induction false} Append(g: Graph, c: Context, p: seq<Name>, q: seq<Name>)
    requires IsChain(g, c, p) && p != [] && p[|p| - 1] in g.bodies
    requires IsChain(g, At(g, p[|p| - 1]), q)
    ensures IsChain(g, c, p + q)
    decreases |p|
  {
    if |p| == 1 {
      assert (p + q)[1..] == q;
    } else {
      Append(g, At(g, p[0]), p[1..], q);
      assert (p + q)[1..] == p[1..] + q;
    }
  }

  /** The part of a chain after one of its names is a chain from there, and the part up to it is one too. */
  lemma {:induction false} Cut(g: Graph, c: Context, chain: seq<Name>, i: nat)
    requires IsChain(g, c, chain) && i < |chain| && chain[i] in g.bodies
    ensures IsChain(g, c, chain[..i + 1]) && IsChain(g, At(g, chain[i]), chain[i + 1..])
    decreases |chain|
  {
    if i > 0 {
      Cut(g, At(g, chain[0]), chain[1..], i - 1);
      assert chain[1..][..i] == chain[..i + 1][1..];
      assert chain[1..][i..] == chain[i + 1..];
    }
  }

  /** A loop run `k` times over. */
  function Repeat(loop: seq<Name>, k: nat): (r: seq<Name>)
    ensures loop != [] ==> |r| >= k
  {
    if k == 0 then [] else Repeat(loop, k - 1) + loop
  }

  lemma {:induction false} RepeatIsChain(g: Graph, n: Name, loop: seq<Name>, k: nat)
    requires n in g.bodies && IsChain(g, At(g, n), loop) && loop != [] && loop[|loop| - 1] == n
    ensures IsChain(g, At(g, n), Repeat(loop, k))
  {
    if k > 0 {
      RepeatIsChain(g, n, loop, k - 1);
      var before := Repeat(loop, k - 1);
      if k > 1 {
        assert before == Repeat(loop, k - 2) + loop;
        Append(g, At(g, n), before, loop);
      } else {
        assert before + loop == loop;
      }
    }
  }

  /** Where chains are bounded, no chain meets one of its names again. */
  lemma NoRepeats(g: Graph, root: Context, path: seq<Name>, n: Name, limit: nat)
    requires Bounded(g, root, limit) && IsChain(g, root, path + [n])
    ensures n !in path
  {
    hide IsChain;
    if n in path {
      var i :| 0 <= i < |path| && path[i] == n;
      var chain := path + [n];
      assert AllExist(g, chain);
      assert n in chain;
      assert chain[i] == n;
      Cut(g, root, chain, i);
      var loop := chain[i + 1..];
      assert loop[|loop| - 1] == n;
      var k := limit + 1;
      RepeatIsChain(g, n, loop, k);
      Append(g, root, chain[..i + 1], Repeat(loop, k));
      assert false;
    }
  }

  // --------------------------------------------------------------------- success is complete

  function Names(path: seq<Name>): set<string> {
    set n <- path :: Fqn(n)
  }

  /** The context at the end of a path of imports. */
  function End(g: Graph, root: Context, path: seq<Name>): Context
    requires AllExist(g, path)
  {
    if path == [] then root else At(g, path[|path| - 1])
  }

  lemma Extend(g: Graph, root: Context, path: seq<Name>, n: Name)
    requires IsChain(g, root, path) && AllExist(g, path) && n in Refs(g, End(g, root, path))
    ensures IsChain(g, root, path + [n])
  {
    if path == [] {
      assert path + [n] == [n];
    } else {
      Append(g, root, path, [n]);
    }
  }

  lemma UnvisitedChild(g: Graph, root: Context, path: seq<Name>, n: Name)
    requires NoSlash(root.project) && Bounded(g, root, MAX_IMPORT_DEPTH)
    requires IsChain(g, root, path) && AllExist(g, path) && n in Refs(g, End(g, root, path))
    ensures n in g.bodies && Fqn(n) !in Names(path) && |path| < MAX_IMPORT_DEPTH
    ensures IsChain(g, root, path + [n]) && AllExist(g, path + [n]) && Names(path + [n]) == Names(path) + {Fqn(n)}
  {
    hide IsChain, NoSlash, Fqn;
    Extend(g, root, path, n);
    assert AllExist(g, path + [n]) && n in path + [n];
    NoRepeats(g, root, path, n, MAX_IMPORT_DEPTH);
    ChainProjects(g, root, path + [n]);
    if Fqn(n) in Names(path) {
      var other :| other in path && Fqn(other) == Fqn(n);
      assert other in path + [n];
      FqnIsInjective(n, other);
      assert false;
    }
  }

  lemma {:induction false} BoundedResolves(g: Graph, root: Context, path: seq<Name>)
    requires NoSlash(root.project) && Bounded(g, root, MAX_IMPORT_DEPTH)
    requires IsChain(g, root, path) && AllExist(g, path)
    ensures Resolve(g, End(g, root, path), Names(path), |path|).Some?
    decreases MAX_IMPORT_DEPTH + 1 - |path|, 1, 0
  {
    hide IsChain, NoSlash, Bounded, Names;
    PathIsBounded(g, root, path);
    BoundedFirst(g, root, path, |Refs(g, End(g, root, path))|);
  }

  lemma PathIsBounded(g: Graph, root: Context, path: seq<Name>)
    requires Bounded(g, root, MAX_IMPORT_DEPTH) && IsChain(g, root, path)
    ensures |path| <= MAX_IMPORT_DEPTH
  {
  }

  lemma {:induction false} BoundedFirst(g: Graph, root: Context, path: seq<Name>, k: nat)
    requires NoSlash(root.project) && Bounded(g, root, MAX_IMPORT_DEPTH)
    requires IsChain(g, root, path) && AllExist(g, path) && k <= |Refs(g, End(g, root, path))|
    requires |path| <= MAX_IMPORT_DEPTH
    ensures ResolveFirst(g, Refs(g, End(g, root, path)), k, Names(path), |path|).Some?
    decreases MAX_IMPORT_DEPTH + 1 - |path|, 0, k
  {
    hide IsChain, NoSlash, Bounded, Names, Fqn;
    if k > 0 {
      var refs := Refs(g, End(g, root, path));
      BoundedFirst(g, root, path, k - 1);
      UnvisitedChild(g, root, path, refs[k - 1]);
      BoundedResolves(g, root, path + [refs[k - 1]]);
      assert End(g, root, path + [refs[k - 1]]) == At(g, refs[k - 1]);
    }
  }

  /**
   * Import resolution is exact: on every graph it answers exactly when every reachable import
   * exists and every import chain has at most 50 edges, so no cycle is reachable; and then it
   * answers exactly the environments reached, each with its body.
   */
  lemma ResolutionIsExact(g: Graph, project: string, body: string)
    requires NoSlash(project)
    ensures var root := Context(project, body);
            && (Resolve(g, root, {}, 0).Some? <==> Bounded(g, root, MAX_IMPORT_DEPTH))
            && (Resolve(g, root, {}, 0).Some? ==> Lists(g, root, Resolve(g, root, {}, 0).value))
  {
    hide Resolve, NoSlash, Lists;
    var root := Context(project, body);
    if Resolve(g, root, {}, 0).Some? {
      AnswerLists(g, root, {}, 0);
      forall chain | IsChain(g, root, chain) ensures AllExist(g, chain) && |chain| <= MAX_IMPORT_DEPTH {
        AnswersAreBounded(g, root, {}, 0, chain);
      }
    }
    if Bounded(g, root, MAX_IMPORT_DEPTH) {
      assert Names([]) == {};
      BoundedResolves(g, root, []);
    }
  }
}
