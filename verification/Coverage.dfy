/** compiler/botapi/coverage.py: the worklists that collect every type a set of
    methods can reach and everything a class inherits. */
module Coverage {

  /** The names a name leads to; a name without an entry is unknown and leads nowhere. */
  type Graph = map<string, seq<string>>

  ghost predicate Edge(g: Graph, a: string, b: string) { a in g && b in g[a] }

  /** A chain of edges through the names in order. */
  ghost predicate Path(g: Graph, p: seq<string>) {
    p != [] && forall i :: 0 <= i < |p| - 1 ==> Edge(g, p[i], p[i + 1])
  }

  /** Reached from one of the roots by a chain of edges. */
  ghost predicate Reachable(g: Graph, roots: seq<string>, name: string) {
    exists p :: Path(g, p) && p[0] in roots && p[|p| - 1] == name
  }

  lemma RootReached(g: Graph, roots: seq<string>, name: string)
    requires name in roots
    ensures Reachable(g, roots, name)
  {
    assert Path(g, [name]);
  }

  lemma StepReached(g: Graph, roots: seq<string>, a: string, b: string)
    requires Reachable(g, roots, a) && Edge(g, a, b)
    ensures Reachable(g, roots, b)
  {
    var p :| Path(g, p) && p[0] in roots && p[|p| - 1] == a;
    var q := p + [b];
    forall i | 0 <= i < |q| - 1 ensures Edge(g, q[i], q[i + 1]) {
      if i < |p| - 1 { assert Edge(g, p[i], p[i + 1]); }
    }
    assert Path(g, q);
  }

  // ------------------------------------------------------------------- worklists

  /** What a worklist has, of the names u it cares about: everything seen or pending
      is reached, and what is seen is closed up to what is pending. */
  ghost predicate Progress(g: Graph, roots: seq<string>, u: set<string>, seen: set<string>, pending: seq<string>) {
    && g.Keys <= u && seen <= u
    && (forall n :: n in seen || n in pending ==> Reachable(g, roots, n))
    && (forall n :: n in roots && n in u ==> n in seen || n in pending)
    && (forall a, b :: a in seen && Edge(g, a, b) && b in u ==> b in seen || b in pending)
  }

  /** The names a name leads to. */
  function Next(g: Graph, name: string): seq<string> { if name in g then g[name] else [] }

  lemma ProgressStarts(g: Graph, roots: seq<string>, u: set<string>)
    requires g.Keys <= u
    ensures Progress(g, roots, u, {}, roots)
  {
    forall n | n in roots ensures Reachable(g, roots, n) { RootReached(g, roots, n); }
  }

  /** Taking the last name off leaves the others. */
  lemma Popped(pending: seq<string>)
    requires pending != []
    ensures forall n :: n in pending <==> n == pending[|pending| - 1] || n in pending[..|pending| - 1]
  {
    assert pending == pending[..|pending| - 1] + [pending[|pending| - 1]];
  }

  lemma ProgressSkips(g: Graph, roots: seq<string>, u: set<string>, seen: set<string>, pending: seq<string>, name: string)
    requires pending != [] && name == pending[|pending| - 1] && Progress(g, roots, u, seen, pending)
    requires name in seen || name !in u
    ensures Progress(g, roots, u, seen, pending[..|pending| - 1])
  {
    Popped(pending);
  }

  lemma ProgressVisits(g: Graph, roots: seq<string>, u: set<string>, seen: set<string>, pending: seq<string>, name: string)
    requires pending != [] && name == pending[|pending| - 1] && Progress(g, roots, u, seen, pending)
    requires name !in seen && name in u
    ensures Reachable(g, roots, name) && seen <= u
    ensures Progress(g, roots, u, seen + {name}, pending[..|pending| - 1] + Next(g, name))
    ensures |u - (seen + {name})| < |u - seen|
  {
    hide Reachable;
    Popped(pending);
    forall b | b in Next(g, name) ensures Reachable(g, roots, b) {
      assert Edge(g, name, b);
      StepReached(g, roots, name, b);
    }
    assert u - (seen + {name}) == (u - seen) - {name};
  }

  lemma {:induction false} PathSeen(g: Graph, roots: seq<string>, u: set<string>, seen: set<string>, p: seq<string>)
    requires Progress(g, roots, u, seen, []) && Path(g, p) && p[0] in roots && p[|p| - 1] in u
    ensures p[|p| - 1] in seen
    decreases |p|
  {
    if |p| > 1 {
      var q := p[..|p| - 1];
      assert Edge(g, p[|p| - 2], p[|p| - 1]);
      forall i | 0 <= i < |q| - 1 ensures Edge(g, q[i], q[i + 1]) {
        assert Edge(g, p[i], p[i + 1]);
      }
      PathSeen(g, roots, u, seen, q);
    }
  }

  /** With nothing pending, the seen names are those that can be reached. */
  lemma ProgressDone(g: Graph, roots: seq<string>, u: set<string>, seen: set<string>)
    requires Progress(g, roots, u, seen, [])
    ensures forall n :: n in seen <==> n in u && Reachable(g, roots, n)
  {
    forall n | n in u && Reachable(g, roots, n) ensures n in seen {
      var p :| Path(g, p) && p[0] in roots && p[|p| - 1] == n;
      PathSeen(g, roots, u, seen, p);
    }
  }

  // --------------------------------------------------------------- required_types

  /** required_types, from the names the implemented methods mention: exactly the
      types of the specification that can be reached. */
  method RequiredTypes(g: Graph, roots: seq<string>) returns (seen: set<string>)
    ensures forall n :: n in seen <==> n in g && Reachable(g, roots, n)
  {
    hide Progress, Reachable;
    seen := {};
    var pending := roots;
    ProgressStarts(g, roots, g.Keys);
    while pending != []
      invariant Progress(g, roots, g.Keys, seen, pending)
      decreases |g.Keys - seen|, |pending|
    {
      var name := pending[|pending| - 1];
      if name in seen || name !in g {
        ProgressSkips(g, roots, g.Keys, seen, pending, name);
        pending := pending[..|pending| - 1];
        continue;
      }
      ProgressVisits(g, roots, g.Keys, seen, pending, name);
      seen := seen + {name};
      pending := pending[..|pending| - 1] + g[name];
    }
    ProgressDone(g, roots, g.Keys, seen);
  }

  // ------------------------------------------------------------------ inheritance

  /** Every name there is, known or only mentioned. */
  function Names(g: Graph, roots: seq<string>): set<string> {
    g.Keys + (set n | n in roots) + (set a, n | a in g && n in g[a] :: n)
  }

  lemma ReachedNamed(g: Graph, roots: seq<string>, n: string)
    requires Reachable(g, roots, n)
    ensures n in Names(g, roots)
  {
    var p :| Path(g, p) && p[0] in roots && p[|p| - 1] == n;
    if |p| > 1 { assert Edge(g, p[|p| - 2], n); }
  }

  /** A class's own parameters and those of every known class above it. */
  ghost predicate Inherits(g: Graph, params: map<string, set<string>>, own: set<string>, bases: seq<string>, x: string) {
    x in own || exists n :: n in params && x in params[n] && Reachable(g, bases, n)
  }

  /** inherited_params. */
  method InheritedParams(g: Graph, params: map<string, set<string>>, own: set<string>, bases: seq<string>)
    returns (result: set<string>)
    requires params.Keys == g.Keys
    ensures forall x :: x in result <==> Inherits(g, params, own, bases, x)
  {
    hide Progress, Reachable, Names, Inherits;
    var u := Names(g, bases);
    var seen: set<string> := {};
    var pending := bases;
    result := own;
    NamesKnown(g, bases);
    ProgressStarts(g, bases, u);
    while pending != []
      invariant Progress(g, bases, u, seen, pending)
      invariant forall x :: x in result <==> x in own || exists n :: n in seen && n in params && x in params[n]
      decreases |u - seen|, |pending|
    {
      var name := pending[|pending| - 1];
      if name in seen {
        ProgressSkips(g, bases, u, seen, pending, name);
        pending := pending[..|pending| - 1];
        continue;
      }
      PendingNamed(g, bases, u, seen, pending, name);
      ProgressVisits(g, bases, u, seen, pending, name);
      seen := seen + {name};
      pending := pending[..|pending| - 1] + Next(g, name);
      if name in g { result := result + params[name]; }
    }
    ProgressDone(g, bases, u, seen);
    forall x ensures x in result <==> Inherits(g, params, own, bases, x) {
      InheritedSeen(g, params, own, bases, seen, x);
    }
  }

  lemma NamesKnown(g: Graph, roots: seq<string>)
    ensures g.Keys <= Names(g, roots)
  {}

  lemma PendingNamed(g: Graph, roots: seq<string>, u: set<string>, seen: set<string>, pending: seq<string>, name: string)
    requires pending != [] && name == pending[|pending| - 1] && Progress(g, roots, u, seen, pending)
    ensures name in Names(g, roots)
  {
    ReachedNamed(g, roots, name);
  }

  lemma InheritedSeen(g: Graph, params: map<string, set<string>>, own: set<string>, bases: seq<string>,
                      seen: set<string>, x: string)
    requires params.Keys == g.Keys
    requires forall n :: n in seen <==> n in Names(g, bases) && Reachable(g, bases, n)
    ensures Inherits(g, params, own, bases, x) <==> x in own || exists n :: n in seen && n in params && x in params[n]
  {
    NamesKnown(g, bases);
    hide Reachable, Names;
    if exists n :: n in params && x in params[n] && Reachable(g, bases, n) {
      var n :| n in params && x in params[n] && Reachable(g, bases, n);
      assert n in seen;
    }
  }

  /** derives_from_object: whether a class above is called Object, known or not. */
  method DerivesFromObject(g: Graph, bases: seq<string>) returns (yes: bool)
    ensures yes <==> Reachable(g, bases, "Object")
  {
    hide Progress, Reachable, Names;
    var u := Names(g, bases);
    var seen: set<string> := {};
    var pending := bases;
    NamesKnown(g, bases);
    ProgressStarts(g, bases, u);
    while pending != []
      invariant Progress(g, bases, u, seen, pending) && "Object" !in seen
      decreases |u - seen|, |pending|
    {
      var name := pending[|pending| - 1];
      if name in seen {
        ProgressSkips(g, bases, u, seen, pending, name);
        pending := pending[..|pending| - 1];
        continue;
      }
      PendingNamed(g, bases, u, seen, pending, name);
      ProgressVisits(g, bases, u, seen, pending, name);
      seen := seen + {name};
      if name == "Object" { return true; }
      pending := pending[..|pending| - 1] + Next(g, name);
    }
    ProgressDone(g, bases, u, seen);
    NotReached(g, bases, u, seen, "Object");
    yes := false;
  }

  lemma NotReached(g: Graph, roots: seq<string>, u: set<string>, seen: set<string>, name: string)
    requires u == Names(g, roots) && name !in seen
    requires forall n :: n in seen <==> n in u && Reachable(g, roots, n)
    ensures !Reachable(g, roots, name)
  {
    if Reachable(g, roots, name) { ReachedNamed(g, roots, name); }
  }
}
