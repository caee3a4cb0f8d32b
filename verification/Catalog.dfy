/**
 The catalog of projects and chats (internal/daemon/projects.go): each visible thread is put into
 the registered project with the longest root above its folder, else into an entry of its own folder,
 or among the chats.
 */
module Catalog {
  import opened Options
  import opened Text
  import LiveTools

  datatype Project = Project(id: string, name: string, rootPaths: seq<string>)

  datatype Thread = Thread(id: string, cwd: string, title: string, projectName: string, updatedAt: int)

  /** What the catalog says of a project or folder itself */
  datatype Title = Title(name: string, directory: string, cwd: string, rootPaths: seq<string>)

  /** What the catalog asks of the rest of the program about paths, names, threads and pins */
  datatype Settings = Settings(
    normalize: string -> string, visible: Thread -> bool, isChat: Thread -> bool,
    titleOf: Project -> Title, folderTitle: Thread -> Title, sortLabel: Thread -> string,
    displayLabel: Thread -> string,
    chatsRoot: string,
    pinned: string -> bool, pinnedProject: string -> bool, pinnedProjectId: string -> bool)

  // ---- Matching a folder to a project ----

  function TrimRightSlashes(s: string): string {
    if s != "" && s[|s| - 1] == '/' then TrimRightSlashes(s[..|s| - 1]) else s
  }

  function Folded(normalize: string -> string, path: string): string {
    ToLower(TrimRightSlashes(normalize(path)))
  }

  /** isPathUnderRoot, and pathWithinRoot in internal/appserver/state_catalog.go */
  predicate IsUnder(normalize: string -> string, path: string, root: string) {
    var p, r := Folded(normalize, path), Folded(normalize, root);
    p != "" && r != "" && (p == r || HasPrefix(p, r + "/"))
  }

  // What "under" means, folder by folder.

  function SlashAt(s: string): (i: nat)
    ensures i <= |s| && '/' !in s[..i]
    ensures i < |s| ==> s[i] == '/'
  {
    if s == "" || s[0] == '/' then 0 else 1 + SlashAt(s[1..])
  }

  /** The names between the slashes of a path */
  function Names(path: string): (names: seq<string>)
    ensures names != []
  {
    var i := SlashAt(path);
    if i == |path| then [path] else [path[..i]] + Names(path[i + 1..])
  }

  function Path(names: seq<string>): string
    requires names != []
  {
    if |names| == 1 then names[0] else names[0] + "/" + Path(names[1..])
  }

  lemma {:induction false} PathOfNames(path: string)
    ensures Path(Names(path)) == path
  {
    hide Path;
    var i := SlashAt(path);
    if i == |path| {
      PathOfOne(path);
    } else {
      PathOfNames(path[i + 1..]);
      PathOfMore(path[..i], Names(path[i + 1..]));
      assert path == path[..i] + "/" + path[i + 1..];
    }
  }

  lemma PathOfOne(name: string)
    ensures Path([name]) == name
  {
  }

  lemma PathOfMore(name: string, names: seq<string>)
    requires names != []
    ensures Path([name] + names) == name + "/" + Path(names)
  {
    assert ([name] + names)[1..] == names;
  }

  lemma {:induction false} PathOfSum(a: seq<string>, b: seq<string>)
    requires a != [] && b != []
    ensures Path(a + b) == Path(a) + "/" + Path(b)
  {
    assert (a + b)[1..] == a[1..] + b;
    if |a| > 1 {
      PathOfSum(a[1..], b);
      assert a[0] + "/" + (Path(a[1..]) + "/" + Path(b)) == a[0] + "/" + Path(a[1..]) + "/" + Path(b);
    }
  }

  lemma {:induction false} SlashBehind(name: string, rest: string)
    requires '/' !in name
    ensures SlashAt(name + "/" + rest) == |name|
  {
    if name == "" {
    } else {
      SlashBehind(name[1..], rest);
      assert (name + "/" + rest)[1..] == name[1..] + "/" + rest;
    }
  }

  lemma FirstName(name: string, rest: string)
    requires '/' !in name
    ensures Names(name + "/" + rest) == [name] + Names(rest)
  {
    var path := name + "/" + rest;
    SlashBehind(name, rest);
    assert path[..|name|] == name && path[|name| + 1..] == rest;
  }

  lemma {:induction false} NamesOfSum(a: string, b: string)
    ensures Names(a + "/" + b) == Names(a) + Names(b)
    decreases |a|
  {
    hide Names;
    var i := SlashAt(a);
    if i == |a| {
      FirstName(a, b);
      OneName(a);
    } else {
      var first, rest := a[..i], a[i + 1..];
      assert a == first + "/" + rest && a + "/" + b == first + "/" + (rest + "/" + b);
      NamesOfSum(rest, b);
      FirstName(first, rest);
      FirstName(first, rest + "/" + b);
    }
  }

  lemma OneName(name: string)
    requires SlashAt(name) == |name|
    ensures Names(name) == [name]
  {
  }

  /** A path is under a root exactly when its first folders are all those of the root, up to case. */
  lemma UnderIffFirstFolders(normalize: string -> string, path: string, root: string)
    ensures var p, r := Folded(normalize, path), Folded(normalize, root);
            IsUnder(normalize, path, root) <==> p != "" && r != "" && Names(r) <= Names(p)
  {
    hide Folded, Names, Path;
    var p, r := Folded(normalize, path), Folded(normalize, root);
    PathOfNames(p);
    PathOfNames(r);
    if HasPrefix(p, r + "/") {
      var rest := p[|r| + 1..];
      assert p == r + "/" + rest;
      NamesOfSum(r, rest);
    }
    if Names(r) <= Names(p) && Names(r) != Names(p) {
      var rest := Names(p)[|Names(r)|..];
      assert Names(p) == Names(r) + rest;
      PathOfSum(Names(r), rest);
    }
  }

  /** The length of the longest of the first `n` roots above `path`, or `best` if none is longer */
  function Longest(normalize: string -> string, path: string, roots: seq<string>, n: nat, best: int): int
    requires n <= |roots|
  {
    if n == 0 then best
    else
      var before := Longest(normalize, path, roots, n - 1, best);
      if IsUnder(normalize, path, roots[n - 1]) && |roots[n - 1]| > before then |roots[n - 1]| else before
  }

  /** The best project among the first `n`, and the length of its root */
  datatype Best = Best(index: int, length: int)

  function BestOf(normalize: string -> string, path: string, projects: seq<Project>, n: nat): Best
    requires n <= |projects|
  {
    if n == 0 then Best(-1, -1)
    else
      var before := BestOf(normalize, path, projects, n - 1);
      var roots := projects[n - 1].rootPaths;
      var length := Longest(normalize, path, roots, |roots|, before.length);
      if length > before.length then Best(n - 1, length) else before
  }

  function Match(normalize: string -> string, projects: seq<Project>, cwd: string): (r: Option<nat>)
    ensures r.Some? ==> r.value < |projects|
  {
    BestIsIndex(normalize, normalize(cwd), projects, |projects|);
    var b := BestOf(normalize, normalize(cwd), projects, |projects|);
    if normalize(cwd) == "" || b.index < 0 then None else Some(b.index)
  }

  lemma {:induction false} BestIsIndex(normalize: string -> string, path: string, projects: seq<Project>, n: nat)
    requires n <= |projects|
    ensures -1 <= BestOf(normalize, path, projects, n).index < n
  {
    if n == 0 {
    } else {
      BestIsIndex(normalize, path, projects, n - 1);
    }
  }

  /** matchRegistryProject */
  method MatchRegistryProject(normalize: string -> string, registry: seq<Project>, cwd: string) returns (r: Option<nat>)
    ensures r == Match(normalize, registry, cwd)
  {
    hide IsUnder;
    var path := normalize(cwd);
    if path == "" {
      return None;
    }
    var best, bestLen := -1, -1;
    for index := 0 to |registry|
      invariant BestOf(normalize, path, registry, index) == Best(best, bestLen)
    {
      var roots := registry[index].rootPaths;
      ghost var was, wasLen := best, bestLen;
      for j := 0 to |roots|
        invariant bestLen == Longest(normalize, path, roots, j, wasLen) >= wasLen
        invariant best == if bestLen > wasLen then index else was
      {
        if !IsUnder(normalize, path, roots[j]) {
          continue;
        }
        if |roots[j]| > bestLen {
          best := index;
          bestLen := |roots[j]|;
        }
      }
    }
    if best < 0 {
      return None;
    }
    BestIsIndex(normalize, path, registry, |registry|);
    return Some(best);
  }

  /** matchStateProject: a project id that is known decides, else the folder does. */
  method MatchStateProject(normalize: string -> string, projects: seq<Project>, projectId: string, cwd: string)
    returns (r: Option<nat>)
    ensures Blank(projectId) || (forall p | p in projects :: p.id != TrimSpace(projectId)) ==>
              r == Match(normalize, projects, cwd)
    ensures !Blank(projectId) && (exists p | p in projects :: p.id == TrimSpace(projectId)) ==>
              && r.Some? && r.value < |projects| && projects[r.value].id == TrimSpace(projectId)
              && forall i | 0 <= i < r.value :: projects[i].id != TrimSpace(projectId)
  {
    hide TrimSpace, IsUnder;
    var id := TrimSpace(projectId);
    if id != "" {
      for index := 0 to |projects|
        invariant forall i | 0 <= i < index :: projects[i].id != id
      {
        if projects[index].id == id {
          return Some(index);
        }
      }
    }
    var path := normalize(cwd);
    if path == "" {
      return None;
    }
    var best: Option<nat>, bestLen := None, -1;
    for index := 0 to |projects|
      invariant BestOf(normalize, path, projects, index) == Best(if best.Some? then best.value else -1, bestLen)
    {
      var roots := projects[index].rootPaths;
      ghost var was, wasLen := best, bestLen;
      for j := 0 to |roots|
        invariant bestLen == Longest(normalize, path, roots, j, wasLen) >= wasLen
        invariant best == if bestLen > wasLen then Some(index) else was
      {
        if !IsUnder(normalize, path, roots[j]) {
          continue;
        }
        if |roots[j]| > bestLen {
          best := Some(index);
          bestLen := |roots[j]|;
        }
      }
    }
    return best;
  }

  lemma {:induction false} LongestIsLongest(
    normalize: string -> string, path: string, roots: seq<string>, n: nat, best: int)
    requires n <= |roots|
    ensures var l := Longest(normalize, path, roots, n, best);
            && l >= best
            && (forall j | 0 <= j < n :: IsUnder(normalize, path, roots[j]) ==> |roots[j]| <= l)
            && (l > best ==> exists j | 0 <= j < n :: IsUnder(normalize, path, roots[j]) && |roots[j]| == l)
  {
    hide IsUnder;
    if n == 0 {
    } else {
      LongestIsLongest(normalize, path, roots, n - 1, best);
    }
  }

  predicate HasRoot(normalize: string -> string, path: string, project: Project, length: int) {
    exists j | 0 <= j < |project.rootPaths| ::
      IsUnder(normalize, path, project.rootPaths[j]) && |project.rootPaths[j]| == length
  }

  /** No root of the project above `path` is longer than `length`. */
  predicate AtMost(normalize: string -> string, path: string, project: Project, length: int) {
    forall j | 0 <= j < |project.rootPaths| ::
      IsUnder(normalize, path, project.rootPaths[j]) ==> |project.rootPaths[j]| <= length
  }

  lemma {:induction false} BestIsBest(normalize: string -> string, path: string, projects: seq<Project>, n: nat)
    requires n <= |projects|
    ensures var b := BestOf(normalize, path, projects, n);
            && -1 <= b.index < n && (b.index < 0 <==> b.length < 0)
            && (forall i | 0 <= i < n :: AtMost(normalize, path, projects[i], b.length))
            && (b.index >= 0 ==>
                  && HasRoot(normalize, path, projects[b.index], b.length)
                  && forall i | 0 <= i < b.index :: AtMost(normalize, path, projects[i], b.length - 1))
  {
    hide IsUnder, HasRoot, AtMost;
    if n == 0 {
    } else {
      BestIsBest(normalize, path, projects, n - 1);
      var before := BestOf(normalize, path, projects, n - 1);
      var roots := projects[n - 1].rootPaths;
      LongestIsLongest(normalize, path, roots, |roots|, before.length);
      var length := Longest(normalize, path, roots, |roots|, before.length);
      assert AtMost(normalize, path, projects[n - 1], length) by {
        AtMostAll(normalize, path, projects[n - 1], length);
      }
      if length > before.length {
        HasRootWitness(normalize, path, projects[n - 1], length);
        forall i | 0 <= i < n - 1
          ensures AtMost(normalize, path, projects[i], length - 1) && AtMost(normalize, path, projects[i], length)
        {
          AtMostMore(normalize, path, projects[i], before.length, length - 1);
          AtMostMore(normalize, path, projects[i], before.length, length);
        }
      }
    }
  }

  lemma AtMostAll(normalize: string -> string, path: string, project: Project, length: int)
    requires forall j | 0 <= j < |project.rootPaths| ::
               IsUnder(normalize, path, project.rootPaths[j]) ==> |project.rootPaths[j]| <= length
    ensures AtMost(normalize, path, project, length)
  {
  }

  lemma AtMostMore(normalize: string -> string, path: string, project: Project, length: int, more: int)
    requires AtMost(normalize, path, project, length) && length <= more
    ensures AtMost(normalize, path, project, more)
  {
  }

  lemma HasRootWitness(normalize: string -> string, path: string, project: Project, length: int)
    requires exists j | 0 <= j < |project.rootPaths| ::
               IsUnder(normalize, path, project.rootPaths[j]) && |project.rootPaths[j]| == length
    ensures HasRoot(normalize, path, project, length)
  {
  }

  /**
   The matched project is the first of those with the longest root above the folder; no project is
   matched exactly when no root of any is above it.
   */
  lemma MatchIsLongest(normalize: string -> string, projects: seq<Project>, cwd: string)
    requires normalize(cwd) != ""
    ensures var path, r := normalize(cwd), Match(normalize, projects, cwd);
            && (r.None? <==> forall i | 0 <= i < |projects| :: AtMost(normalize, path, projects[i], -1))
            && (r.Some? ==> exists length: nat ::
                  && HasRoot(normalize, path, projects[r.value], length)
                  && (forall i | 0 <= i < |projects| :: AtMost(normalize, path, projects[i], length))
                  && forall i | 0 <= i < r.value :: AtMost(normalize, path, projects[i], length - 1))
  {
    hide IsUnder;
    var path := normalize(cwd);
    BestIsBest(normalize, path, projects, |projects|);
    var b := BestOf(normalize, path, projects, |projects|);
    if b.index < 0 {
      forall i | 0 <= i < |projects| ensures AtMost(normalize, path, projects[i], -1) {
        AtMostMore(normalize, path, projects[i], b.length, -1);
      }
    } else {
      var length: nat := b.length;
      assert HasRoot(normalize, path, projects[b.index], length);
      assert !AtMost(normalize, path, projects[b.index], -1);
    }
  }
}
