/** The hot-reload traversal under a service: a recursion over the (possibly cyclic) module graph. */
module ModuleWatch {
  import opened Sequences

  /*
   For each project file it records the services the file belongs to and the files on the way to it.
   */

  type File = string

  datatype WatchItem = WatchItem(services: seq<string>, allServices: bool, brokerRestart: bool, others: seq<File>)

  type WatchMap = map<File, WatchItem>

  /** The loaded modules: the children of each file, and which files lie in node_modules. */
  datatype Modules = Modules(children: map<File, seq<File>>, external: set<File>)

  function ChildrenOf(m: Modules, f: File): seq<File> {
    if f in m.children then m.children[f] else []
  }

  // ----- what a traversal visits -----

  predicate Linked(m: Modules, w: seq<File>) {
    forall i :: 0 <= i < |w| - 1 ==> w[i + 1] in ChildrenOf(m, w[i])
  }

  /** A path through project files from its first file to its last; it may run through cycles. */
  predicate IsPath(m: Modules, w: seq<File>) {
    w != [] && Linked(m, w) && forall f :: f in w ==> f !in m.external
  }

  predicate NoRepeats(w: seq<File>) {
    forall i, j :: 0 <= i < j < |w| ==> w[i] != w[j]
  }

  /** A path without repetitions that avoids the files already on the parent path. */
  predicate IsWalk(m: Modules, parents: seq<File>, w: seq<File>) {
    IsPath(m, w) && NoRepeats(w) && forall f :: f in w ==> f !in parents
  }

  predicate FromTo(w: seq<File>, f: File, g: File) {
    w != [] && w[0] == f && w[|w| - 1] == g
  }

  /** The recursion from `f` with these parents comes by `g`. */
  ghost predicate Visits(m: Modules, parents: seq<File>, f: File, g: File) {
    exists w :: IsWalk(m, parents, w) && FromTo(w, f, g)
  }

  /** ... and does so with `x` on the parent path. */
  ghost predicate VisitsVia(m: Modules, parents: seq<File>, f: File, g: File, x: File) {
    exists w :: IsWalk(m, parents, w) && FromTo(w, f, g) && (x in parents || x in w[..|w| - 1])
  }

  predicate Enters(m: Modules, parents: seq<File>, f: File) {
    f !in m.external && f !in parents
  }

  lemma WalkTail(m: Modules, parents: seq<File>, w: seq<File>)
    requires IsWalk(m, parents, w) && |w| > 1
    ensures IsWalk(m, parents + [w[0]], w[1..])
    ensures w[1] in ChildrenOf(m, w[0])
  {
  }

  lemma WalkCons(m: Modules, parents: seq<File>, f: File, t: seq<File>)
    requires Enters(m, parents, f)
    requires IsWalk(m, parents + [f], t) && t[0] in ChildrenOf(m, f)
    ensures IsWalk(m, parents, [f] + t)
  {
    var w := [f] + t;
    forall i | 0 <= i < |w| - 1
      ensures w[i + 1] in ChildrenOf(m, w[i])
    {
      if i > 0 { assert t[i - 1 + 1] in ChildrenOf(m, t[i - 1]); }
    }
    assert forall g :: g in w ==> g == f || g in t;
    assert forall g :: g in t ==> g !in parents + [f];
    assert f in parents + [f];
    forall i, j | 0 <= i < j < |w|
      ensures w[i] != w[j]
    {
      assert w[j] == t[j - 1] && t[j - 1] in t;
      if i > 0 { assert w[i] == t[i - 1]; }
    }
  }

  /** The children of `f` up to the `k`-th lead to `g`. */
  ghost predicate ChildVisits(m: Modules, parents: seq<File>, f: File, k: nat, g: File)
    requires k <= |ChildrenOf(m, f)|
  {
    exists i :: 0 <= i < k && Visits(m, parents + [f], ChildrenOf(m, f)[i], g)
  }

  ghost predicate ChildVisitsVia(m: Modules, parents: seq<File>, f: File, k: nat, g: File, x: File)
    requires k <= |ChildrenOf(m, f)|
  {
    exists i :: 0 <= i < k && VisitsVia(m, parents + [f], ChildrenOf(m, f)[i], g, x)
  }

  /** A visit is of `f` itself or goes through one of its children. */
  lemma VisitsUnfold(m: Modules, parents: seq<File>, f: File, g: File)
    requires Enters(m, parents, f)
    ensures Visits(m, parents, f, g) <==> g == f || ChildVisits(m, parents, f, |ChildrenOf(m, f)|, g)
  {
    var cs := ChildrenOf(m, f);
    if Visits(m, parents, f, g) && g != f {
      var w :| IsWalk(m, parents, w) && FromTo(w, f, g);
      WalkTail(m, parents, w);
      var i :| 0 <= i < |cs| && cs[i] == w[1];
      assert FromTo(w[1..], cs[i], g);
      assert Visits(m, parents + [f], cs[i], g);
    }
    if g == f {
      assert IsWalk(m, parents, [f]) && FromTo([f], f, g);
    }
    if ChildVisits(m, parents, f, |cs|, g) {
      var i :| 0 <= i < |cs| && Visits(m, parents + [f], cs[i], g);
      var t :| IsWalk(m, parents + [f], t) && FromTo(t, cs[i], g);
      WalkCons(m, parents, f, t);
      assert FromTo([f] + t, f, g);
    }
  }

  lemma ViaFirstStep(m: Modules, parents: seq<File>, f: File, w: seq<File>, x: File)
    requires IsWalk(m, parents, w) && |w| > 1 && w[0] == f && (x in parents || x in w[..|w| - 1])
    ensures ChildVisitsVia(m, parents, f, |ChildrenOf(m, f)|, w[|w| - 1], x)
  {
    var cs, t := ChildrenOf(m, f), w[1..];
    WalkTail(m, parents, w);
    var i :| 0 <= i < |cs| && cs[i] == w[1];
    assert FromTo(t, cs[i], w[|w| - 1]);
    assert w[..|w| - 1] == [f] + t[..|t| - 1];
    assert x in parents + [f] || x in t[..|t| - 1];
    assert VisitsVia(m, parents + [f], cs[i], w[|w| - 1], x);
  }

  lemma ViaChild(m: Modules, parents: seq<File>, f: File, g: File, x: File)
    requires Enters(m, parents, f) && ChildVisitsVia(m, parents, f, |ChildrenOf(m, f)|, g, x)
    ensures VisitsVia(m, parents, f, g, x)
  {
    var cs := ChildrenOf(m, f);
    var i :| 0 <= i < |cs| && VisitsVia(m, parents + [f], cs[i], g, x);
    var t :| IsWalk(m, parents + [f], t) && FromTo(t, cs[i], g) && (x in parents + [f] || x in t[..|t| - 1]);
    ViaWalk(m, parents, f, g, x, t);
  }

  lemma ViaWalk(m: Modules, parents: seq<File>, f: File, g: File, x: File, t: seq<File>)
    requires Enters(m, parents, f)
    requires IsWalk(m, parents + [f], t) && t[0] in ChildrenOf(m, f) && t[|t| - 1] == g
    requires x in parents + [f] || x in t[..|t| - 1]
    ensures VisitsVia(m, parents, f, g, x)
  {
    WalkCons(m, parents, f, t);
    OnTheWay(parents, f, t, x);
    assert FromTo([f] + t, f, g);
  }

  lemma OnTheWay(parents: seq<File>, f: File, t: seq<File>, x: File)
    requires t != [] && (x in parents + [f] || x in t[..|t| - 1])
    ensures x in parents || x in ([f] + t)[..|[f] + t| - 1]
  {
    assert ([f] + t)[..|[f] + t| - 1] == [f] + t[..|t| - 1];
  }

  lemma VisitsViaUnfold(m: Modules, parents: seq<File>, f: File, g: File, x: File)
    requires Enters(m, parents, f)
    ensures VisitsVia(m, parents, f, g, x) <==>
              (g == f && x in parents) || ChildVisitsVia(m, parents, f, |ChildrenOf(m, f)|, g, x)
  {
    if VisitsVia(m, parents, f, g, x) {
      var w :| IsWalk(m, parents, w) && FromTo(w, f, g) && (x in parents || x in w[..|w| - 1]);
      if |w| > 1 { ViaFirstStep(m, parents, f, w, x); }
    }
    if g == f && x in parents {
      assert IsWalk(m, parents, [f]) && FromTo([f], f, g);
    }
    if ChildVisitsVia(m, parents, f, |ChildrenOf(m, f)|, g, x) {
      ViaChild(m, parents, f, g, x);
    }
  }

  // ----- the same as sets of pairs -----

  /** (file, service) and (file, other file) pairs that the recursion from `f` records. */
  ghost function VisitPairs(m: Modules, parents: seq<File>, f: File, service: string): iset<(File, string)> {
    iset p: (File, string) | p.1 == service && Visits(m, parents, f, p.0)
  }

  ghost function ViaPairs(m: Modules, parents: seq<File>, f: File): iset<(File, File)> {
    iset p: (File, File) | VisitsVia(m, parents, f, p.0, p.1)
  }

  ghost function ChildVisitPairs(m: Modules, parents: seq<File>, f: File, k: nat, service: string): iset<(File, string)>
    requires k <= |ChildrenOf(m, f)|
  {
    iset p: (File, string) | p.1 == service && ChildVisits(m, parents, f, k, p.0)
  }

  ghost function ChildViaPairs(m: Modules, parents: seq<File>, f: File, k: nat): iset<(File, File)>
    requires k <= |ChildrenOf(m, f)|
  {
    iset p: (File, File) | ChildVisitsVia(m, parents, f, k, p.0, p.1)
  }

  ghost function OwnVia(f: File, parents: seq<File>): iset<(File, File)> {
    iset p: (File, File) | p.0 == f && p.1 in parents
  }

  lemma NothingVisited(m: Modules, parents: seq<File>, f: File, service: string)
    requires !Enters(m, parents, f)
    ensures VisitPairs(m, parents, f, service) == iset{}
    ensures ViaPairs(m, parents, f) == iset{}
  {
  }

  lemma EverythingVisited(m: Modules, parents: seq<File>, f: File, service: string)
    requires Enters(m, parents, f)
    ensures VisitPairs(m, parents, f, service) ==
            iset{(f, service)} + ChildVisitPairs(m, parents, f, |ChildrenOf(m, f)|, service)
    ensures ViaPairs(m, parents, f) == OwnVia(f, parents) + ChildViaPairs(m, parents, f, |ChildrenOf(m, f)|)
  {
    var n := |ChildrenOf(m, f)|;
    forall g ensures Visits(m, parents, f, g) <==> g == f || ChildVisits(m, parents, f, n, g) {
      VisitsUnfold(m, parents, f, g);
    }
    forall g, x
      ensures VisitsVia(m, parents, f, g, x) <==> (g == f && x in parents) || ChildVisitsVia(m, parents, f, n, g, x)
    {
      VisitsViaUnfold(m, parents, f, g, x);
    }
  }

  lemma NoChild(m: Modules, parents: seq<File>, f: File, service: string)
    ensures ChildVisitPairs(m, parents, f, 0, service) == iset{} && ChildViaPairs(m, parents, f, 0) == iset{}
  {
  }

  lemma OneMoreChild(m: Modules, parents: seq<File>, f: File, k: nat, service: string)
    requires k < |ChildrenOf(m, f)|
    ensures var c := ChildrenOf(m, f)[k];
            ChildVisitPairs(m, parents, f, k + 1, service) ==
              ChildVisitPairs(m, parents, f, k, service) + VisitPairs(m, parents + [f], c, service)
            && ChildViaPairs(m, parents, f, k + 1) == ChildViaPairs(m, parents, f, k) + ViaPairs(m, parents + [f], c)
  {
    var c := ChildrenOf(m, f)[k];
    forall g ensures ChildVisits(m, parents, f, k + 1, g) <==>
      ChildVisits(m, parents, f, k, g) || Visits(m, parents + [f], c, g) {}
    forall g, x
      ensures ChildVisitsVia(m, parents, f, k + 1, g, x) <==>
                ChildVisitsVia(m, parents, f, k, g, x) || VisitsVia(m, parents + [f], c, g, x)
    {
    }
  }

  // ----- cycles do not matter -----

  /** Cutting the loops out of a path. */
  lemma {:induction false} Shorten(m: Modules, p: seq<File>) returns (w: seq<File>)
    requires IsPath(m, p)
    ensures IsWalk(m, [], w) && FromTo(w, p[0], p[|p| - 1])
    ensures forall f :: f in w ==> f in p
    decreases |p|
  {
    if |p| == 1 {
      w := p;
    } else if p[0] in p[1..] {
      var k :| 1 <= k < |p| && p[k] == p[0];
      PathSuffix(m, p, k);
      w := Shorten(m, p[k..]);
    } else {
      PathSuffix(m, p, 1);
      var t := Shorten(m, p[1..]);
      assert IsWalk(m, [] + [p[0]], t);
      assert t[0] == p[1];
      assert p[0] in p;
      WalkCons(m, [], p[0], t);
      w := [p[0]] + t;
    }
  }

  lemma PathSuffix(m: Modules, p: seq<File>, k: nat)
    requires IsPath(m, p) && k < |p|
    ensures IsPath(m, p[k..])
    ensures forall f :: f in p[k..] ==> f in p
  {
  }

  ghost predicate Reachable(m: Modules, f: File, g: File) {
    exists p :: IsPath(m, p) && FromTo(p, f, g)
  }

  /** From the service file, the recursion comes by exactly the files reachable through project files. */
  lemma VisitsAllReachable(m: Modules, f: File, g: File)
    ensures Visits(m, [], f, g) <==> Reachable(m, f, g)
  {
    if Visits(m, [], f, g) {
      var w :| IsWalk(m, [], w) && FromTo(w, f, g);
    }
    if Reachable(m, f, g) {
      var p :| IsPath(m, p) && FromTo(p, f, g);
      var w := Shorten(m, p);
    }
  }

  /** A project file reaches itself and, with any file, that file's children in the project. */
  lemma ReachableSteps(m: Modules, f: File, g: File, h: File)
    ensures Reachable(m, f, f) <==> f !in m.external
    ensures Reachable(m, f, g) && g in m.children && h in m.children[g] && h !in m.external ==> Reachable(m, f, h)
  {
    if f !in m.external { assert IsPath(m, [f]) && FromTo([f], f, f); }
    if Reachable(m, f, g) && g in m.children && h in m.children[g] && h !in m.external {
      var p :| IsPath(m, p) && FromTo(p, f, g);
      assert IsPath(m, p + [h]) && FromTo(p + [h], f, h);
    }
  }

  /** Nothing else is: every set that holds the file and all project children of its members holds what is reachable. */
  lemma {:induction false} ReachableIsLeast(m: Modules, f: File, files: iset<File>, g: File)
    requires f !in m.external ==> f in files
    requires forall a, b :: a in files && a in m.children && b in m.children[a] && b !in m.external ==> b in files
    ensures Reachable(m, f, g) ==> g in files
  {
    if Reachable(m, f, g) {
      var p :| IsPath(m, p) && FromTo(p, f, g);
      PathStaysIn(m, p, files, |p| - 1);
    }
  }

  lemma {:induction false} PathStaysIn(m: Modules, p: seq<File>, files: iset<File>, k: nat)
    requires IsPath(m, p) && k < |p| && p[0] in files
    requires forall a, b :: a in files && a in m.children && b in m.children[a] && b !in m.external ==> b in files
    ensures p[k] in files
  {
    if k > 0 {
      PathStaysIn(m, p, files, k - 1);
      assert p[k - 1 + 1] in ChildrenOf(m, p[k - 1]);
    }
  }

  /** A file is on the way to another one exactly when a path that repeats no file comes by it before its end. */
  lemma PathMakesVia(m: Modules, w: seq<File>, k: nat)
    requires k + 1 < |w| && forall i :: 0 <= i < |w| ==> w[i] !in m.external
    requires forall i, j :: 0 <= i < j < |w| ==> w[i] != w[j]
    requires forall i :: 0 <= i < |w| - 1 ==> w[i] in m.children
    requires forall i, j :: 0 <= i < |w| - 1 && j == i + 1 ==> w[j] in m.children[w[i]]
    ensures VisitsVia(m, [], w[0], w[|w| - 1], w[k])
  {
    assert IsWalk(m, [], w) && FromTo(w, w[0], w[|w| - 1]) && w[..|w| - 1][k] == w[k];
  }

  lemma PathOfVia(m: Modules, f: File, g: File, x: File) returns (w: seq<File>, k: nat)
    requires VisitsVia(m, [], f, g, x)
    ensures k + 1 < |w| && w[0] == f && w[k] == x && w[|w| - 1] == g
    ensures forall i :: 0 <= i < |w| ==> w[i] !in m.external
    ensures forall i, j :: 0 <= i < j < |w| ==> w[i] != w[j]
    ensures forall i :: 0 <= i < |w| - 1 ==> w[i] in m.children
    ensures forall i, j :: 0 <= i < |w| - 1 && j == i + 1 ==> w[j] in m.children[w[i]]
  {
    w :| IsWalk(m, [], w) && FromTo(w, f, g) && x in w[..|w| - 1];
    k :| 0 <= k < |w| - 1 && w[k] == x;
    WalkIs(m, w);
  }

  lemma WalkIs(m: Modules, w: seq<File>)
    requires IsWalk(m, [], w)
    ensures forall i :: 0 <= i < |w| ==> w[i] !in m.external
    ensures forall i :: 0 <= i < |w| - 1 ==> w[i] in m.children
    ensures forall i, j :: 0 <= i < |w| - 1 && j == i + 1 ==> w[j] in m.children[w[i]]
  {
    forall i | 0 <= i < |w| - 1
      ensures w[i] in m.children && w[i + 1] in m.children[w[i]]
    {
      assert w[i + 1] in ChildrenOf(m, w[i]);
    }
  }

  // ----- the traversal -----

  function ServicesOf(items: WatchMap, g: File): seq<string> {
    if g in items then items[g].services else []
  }

  function OthersOf(items: WatchMap, g: File): seq<File> {
    if g in items then items[g].others else []
  }

  ghost function ServicePairs(items: WatchMap): iset<(File, string)> {
    iset p: (File, string) | p.1 in ServicesOf(items, p.0)
  }

  ghost function OtherPairs(items: WatchMap): iset<(File, File)> {
    iset p: (File, File) | p.1 in OthersOf(items, p.0)
  }

  lemma Assoc<T>(a: iset<T>, b: iset<T>, c: iset<T>)
    ensures a + b + c == a + (b + c)
  {
  }

  /** The modules with children that are not yet on the parent path. */
  function Unvisited(m: Modules, parents: seq<File>): set<File> {
    m.children.Keys - set p | p in parents
  }

  lemma PathGrows(m: Modules, parents: seq<File>, f: File)
    requires Enters(m, parents, f) && |ChildrenOf(m, f)| > 0
    ensures Unvisited(m, parents + [f]) < Unvisited(m, parents)
  {
    assert f in Unvisited(m, parents) && f !in Unvisited(m, parents + [f]);
    assert forall p :: p in parents ==> p in parents + [f];
  }

  class HotReload {
    const modules: Modules
    var projectFiles: WatchMap

    constructor (modules: Modules)
      ensures this.modules == modules && projectFiles == map[]
    {
      this.modules := modules;
      projectFiles := map[];
    }

    method GetWatchItem(fName: File) returns (item: WatchItem)
      modifies this
      ensures fName in projectFiles && projectFiles[fName] == item
      ensures projectFiles == old(projectFiles)[fName := item]
      ensures item == if fName in old(projectFiles) then old(projectFiles)[fName] else WatchItem([], false, false, [])
    {
      if fName in projectFiles {
        return projectFiles[fName];
      }
      item := WatchItem([], false, false, []);
      projectFiles := projectFiles[fName := item];
    }

    /** Records one visit of a project file. */
    method Visit(fName: File, service: string, parents: seq<File>)
      modifies this
      ensures ServicePairs(projectFiles) == ServicePairs(old(projectFiles)) + iset{(fName, service)}
      ensures OtherPairs(projectFiles) == OtherPairs(old(projectFiles)) + OwnVia(fName, parents)
    {
      ghost var before := projectFiles;
      var watchItem := GetWatchItem(fName);
      if service !in watchItem.services {
        watchItem := watchItem.(services := watchItem.services + [service]);
      }
      UniqueMembers(watchItem.others + parents);
      watchItem := watchItem.(others := Unique(watchItem.others + parents));
      projectFiles := projectFiles[fName := watchItem];
      VisitRecorded(before, watchItem, fName, service, parents);
    }

    lemma VisitRecorded(before: WatchMap, item: WatchItem, f: File, service: string, parents: seq<File>)
      requires forall s :: s in item.services <==> s in ServicesOf(before, f) || s == service
      requires forall x :: x in item.others <==> x in OthersOf(before, f) || x in parents
      ensures ServicePairs(before[f := item]) == ServicePairs(before) + iset{(f, service)}
      ensures OtherPairs(before[f := item]) == OtherPairs(before) + OwnVia(f, parents)
    {
      var after := before[f := item];
      assert forall g :: g != f ==> ServicesOf(after, g) == ServicesOf(before, g);
      assert forall g :: g != f ==> OthersOf(after, g) == OthersOf(before, g);
    }

    /** `processModule` under a service, from any parent path, in any graph; it ends because the path never repeats. */
    method ProcessModule(fName: File, service: string, parents: seq<File>)
      modifies this
      ensures ServicePairs(projectFiles) ==
              ServicePairs(old(projectFiles)) + VisitPairs(modules, parents, fName, service)
      ensures OtherPairs(projectFiles) == OtherPairs(old(projectFiles)) + ViaPairs(modules, parents, fName)
      decreases Unvisited(modules, parents)
    {
      // hotReloadModules is never filled, so no file of node_modules is let through.
      if fName in modules.external || fName in parents {
        NothingVisited(modules, parents, fName, service);
        return;
      }
      EverythingVisited(modules, parents, fName, service);
      Visit(fName, service, parents);
      var children := ChildrenOf(modules, fName);
      if |children| > 0 {
        ProcessChildren(fName, service, parents);
      } else {
        NoChild(modules, parents, fName, service);
      }
    }

    method ProcessChildren(fName: File, service: string, parents: seq<File>)
      requires Enters(modules, parents, fName) && |ChildrenOf(modules, fName)| > 0
      modifies this
      ensures ServicePairs(projectFiles) == ServicePairs(old(projectFiles)) +
                ChildVisitPairs(modules, parents, fName, |ChildrenOf(modules, fName)|, service)
      ensures OtherPairs(projectFiles) == OtherPairs(old(projectFiles)) +
                ChildViaPairs(modules, parents, fName, |ChildrenOf(modules, fName)|)
      decreases Unvisited(modules, parents), 0
    {
      var children := ChildrenOf(modules, fName);
      var path := parents + [fName];
      PathGrows(modules, parents, fName);
      ghost var services, others := ServicePairs(projectFiles), OtherPairs(projectFiles);
      NoChild(modules, parents, fName, service);
      for i := 0 to |children|
        invariant ServicePairs(projectFiles) == services + ChildVisitPairs(modules, parents, fName, i, service)
        invariant OtherPairs(projectFiles) == others + ChildViaPairs(modules, parents, fName, i)
      {
        OneMoreChild(modules, parents, fName, i, service);
        Assoc(services, ChildVisitPairs(modules, parents, fName, i, service),
          VisitPairs(modules, path, children[i], service));
        Assoc(others, ChildViaPairs(modules, parents, fName, i), ViaPairs(modules, path, children[i]));
        ProcessModule(children[i], service, path);
      }
    }

    /** A service's own traversal lists it in exactly the watch items of the project files reachable from its file. */
    method WatchService(fName: File, service: string)
      modifies this
      ensures forall g :: service in ServicesOf(projectFiles, g) <==>
                service in ServicesOf(old(projectFiles), g) || Reachable(modules, fName, g)
      ensures forall g, s :: s != service ==>
              (s in ServicesOf(projectFiles, g) <==> s in ServicesOf(old(projectFiles), g))
      ensures forall g, x :: x in OthersOf(projectFiles, g) <==>
                x in OthersOf(old(projectFiles), g) || VisitsVia(modules, [], fName, g, x)
    {
      ProcessModule(fName, service, []);
      ghost var before, after := old(projectFiles), projectFiles;
      forall g, s
        ensures s in ServicesOf(after, g) <==>
                s in ServicesOf(before, g) || (s == service && Reachable(modules, fName, g))
      {
        VisitsAllReachable(modules, fName, g);
        assert (g, s) in ServicePairs(after) <==>
               (g, s) in ServicePairs(before) + VisitPairs(modules, [], fName, service);
      }
      forall g, x
        ensures x in OthersOf(after, g) <==> x in OthersOf(before, g) || VisitsVia(modules, [], fName, g, x)
      {
        assert (g, x) in OtherPairs(after) <==> (g, x) in OtherPairs(before) + ViaPairs(modules, [], fName);
      }
    }
  }
}
