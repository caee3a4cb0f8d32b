/**
 The catalog in plain terms (internal/daemon/projects.go): which folders lie under a root, where a
 thread is shown, what comes before what, and how many threads are counted.
 */
module CatalogRules {
  import opened Options
  import opened Text
  import opened Catalog
  import opened CatalogCounts
  import opened CatalogTotals
  import LiveTools
  import TextRules

  // ---- Folders ----

  lemma {:induction false} SlashesAreCut(s: string)
    ensures TrimRightSlashes(s) <= s
    ensures forall i | |TrimRightSlashes(s)| <= i < |s| :: s[i] == '/'
    ensures TrimRightSlashes(s) != "" ==> TrimRightSlashes(s)[|TrimRightSlashes(s)| - 1] != '/'
  {
    if s != "" && s[|s| - 1] == '/' {
      SlashesAreCut(s[..|s| - 1]);
    }
  }

  /** `t` is `s` without the slashes it ends in. */
  predicate WithoutSlashes(s: string, t: string) {
    t <= s && (forall i | |t| <= i < |s| :: s[i] == '/') && (t != "" ==> t[|t| - 1] != '/')
  }

  /**
   A path is under a root exactly when neither is all slashes, the root is the beginning of the path up
   to case, and the path ends there or goes on with a slash.
   */
  lemma UnderIff(normalize: string -> string, path: string, root: string, p: string, r: string)
    requires WithoutSlashes(normalize(path), p) && WithoutSlashes(normalize(root), r)
    ensures IsUnder(normalize, path, root)
            <==> && p != "" && r != "" && |r| <= |p| && (forall i | 0 <= i < |r| :: Lower(p[i]) == Lower(r[i]))
                 && (|p| == |r| || p[|r|] == '/')
  {
    SlashesAreCut(normalize(path));
    SlashesAreCut(normalize(root));
    OneCut(normalize(path), p, TrimRightSlashes(normalize(path)));
    OneCut(normalize(root), r, TrimRightSlashes(normalize(root)));
    PrefixIsFolded(p, r);
  }

  lemma OneCut(s: string, t: string, u: string)
    requires WithoutSlashes(s, t) && WithoutSlashes(s, u)
    ensures t == u
  {
    assert u != "" ==> s[|u| - 1] == u[|u| - 1];
    assert t != "" ==> s[|t| - 1] == t[|t| - 1];
    assert |t| == |u|;
    assert t == s[..|t|] && u == s[..|u|];
  }

  lemma PrefixIsFolded(p: string, r: string)
    ensures ToLower(p) == ToLower(r) || HasPrefix(ToLower(p), ToLower(r) + "/")
            <==> && |r| <= |p| && (forall i | 0 <= i < |r| :: Lower(p[i]) == Lower(r[i]))
                 && (|p| == |r| || p[|r|] == '/')
  {
    var a, b := ToLower(p), ToLower(r);
    assert forall i | 0 <= i < |p| :: a[i] == Lower(p[i]);
    assert forall i | 0 <= i < |r| :: b[i] == Lower(r[i]);
    if b + "/" <= a {
      assert a[..|b|] == b && a[|b|] == (b + "/")[|b|] == '/';
      assert forall i | 0 <= i < |b| :: a[i] == (b + "/")[i] == b[i];
      OnlySlash(p[|r|]);
    }
    if |r| < |p| && (forall i | 0 <= i < |r| :: Lower(p[i]) == Lower(r[i])) && p[|r|] == '/' {
      assert a[..|b| + 1] == b + "/";
    }
  }

  lemma OnlySlash(c: char)
    ensures Lower(c) == '/' ==> c == '/'
  {
  }

  // ---- Where a thread is shown ----

  /**
   A thread is hidden when it is not visible, among the chats when it is one, in the project that its
   folder matches, and else in the entry of its own folder or of itself when it has none.
   */
  lemma PlaceIs(s: Settings, registry: seq<Project>, t: Thread)
    ensures var place, m := PlaceOf(s, registry, t), Match(s.normalize, registry, t.cwd);
            && (place == Hidden <==> !s.visible(t))
            && (place == Chats <==> s.visible(t) && s.isChat(t))
            && (place.InProject? <==> s.visible(t) && !s.isChat(t) && m.Some?)
            && (place.InProject? ==> place == InProject(registry[m.value].id))
            && (place.InFolder? <==> s.visible(t) && !s.isChat(t) && m.None?)
            && (place.InFolder? && s.normalize(t.cwd) != "" ==> place == InFolder(s.normalize(t.cwd)))
            && (place.InFolder? && s.normalize(t.cwd) == "" ==> place == InFolder("thread:" + t.id))
  {
  }

  /** The number of threads that are visible */
  function CountVisible(s: Settings, threads: seq<Thread>): nat {
    if threads == [] then 0
    else CountVisible(s, threads[..|threads| - 1]) + if s.visible(threads[|threads| - 1]) then 1 else 0
  }

  lemma {:induction false} VisiblePlaces(s: Settings, registry: seq<Project>, threads: seq<Thread>)
    ensures VisibleCount(Places(s, registry, threads)) == CountVisible(s, threads)
  {
    hide PlaceOf, Places;
    if threads == [] {
      NoPlaces(s, registry);
    } else {
      VisiblePlaces(s, registry, threads[..|threads| - 1]);
      PlacesOneMore(s, registry, threads);
      PlaceIs(s, registry, threads[|threads| - 1]);
    }
  }

  /** With distinct project ids the counts of all entries add up to the number of visible threads. */
  lemma VisibleThreadsAreCounted(
    s: Settings, registry: seq<Project>, threads: seq<Thread>, entries: seq<Entry>, chats: seq<Thread>)
    requires IsCatalog(s, registry, threads, entries, chats)
    requires forall i, j | 0 <= i < j < |registry| :: registry[i].id != registry[j].id
    ensures Total(entries) == CountVisible(s, threads)
  {
    hide PlaceOf, IsCatalog, Places, Total, VisibleCount;
    DistinctIdsAddUp(s, registry, threads, entries, chats);
    VisiblePlaces(s, registry, threads);
  }

  // ---- Chats ----

  /** The chats are the visible threads that are chats, in the order of the threads. */
  lemma {:induction false} ChatsAre(s: Settings, registry: seq<Project>, threads: seq<Thread>)
    ensures forall t :: t in ChatsOf(s, registry, threads) <==> t in threads && s.visible(t) && s.isChat(t)
  {
    hide PlaceOf;
    if threads == [] {
    } else {
      var front, last := threads[..|threads| - 1], threads[|threads| - 1];
      assert threads == front + [last];
      ChatsAre(s, registry, front);
      PlaceIs(s, registry, last);
    }
  }

  /** `a` sorts before `b`: it is a beginning of it, or has the smaller character where they first differ. */
  predicate Precedes(a: string, b: string) {
    exists i | 0 <= i <= |a| && i < |b| :: a[..i] == b[..i] && (i == |a| || a[i] < b[i])
  }

  lemma {:induction false} BeforePrecedes(a: string, b: string)
    ensures LiveTools.Before(a, b) <==> Precedes(a, b)
  {
    if b == "" {
    } else if a == "" {
      assert a[..0] == b[..0];
    } else {
      var a', b' := a[1..], b[1..];
      BeforePrecedes(a', b');
      if a[0] < b[0] {
        assert a[..0] == b[..0];
      }
      if a[0] == b[0] && Precedes(a', b') {
        var i :| 0 <= i <= |a'| && i < |b'| && a'[..i] == b'[..i] && (i == |a'| || a'[i] < b'[i]);
        assert a[..i + 1] == [a[0]] + a'[..i] && b[..i + 1] == [b[0]] + b'[..i];
      }
      if Precedes(a, b) {
        var i :| 0 <= i <= |a| && i < |b| && a[..i] == b[..i] && (i == |a| || a[i] < b[i]);
        if i > 0 {
          assert a[..i][0] == b[..i][0];
          TailOfPrefix(a, i);
          TailOfPrefix(b, i);
          assert a'[..i - 1] == b'[..i - 1];
        }
      }
    }
  }

  lemma TailOfPrefix(s: string, i: nat)
    requires 0 < i <= |s|
    ensures s[1..][..i - 1] == s[..i][1..]
  {
  }

  /** A chat comes before another when it alone is pinned, else when it is later, else by its label. */
  lemma ChatComesBefore(s: Settings, a: Thread, b: Thread)
    ensures ThreadLess(s, a, b)
            <==> || (s.pinned(a.id) && !s.pinned(b.id))
                 || (s.pinned(a.id) == s.pinned(b.id)
                     && (a.updatedAt > b.updatedAt
                         || (a.updatedAt == b.updatedAt
                             && Precedes(ToLower(s.sortLabel(a)), ToLower(s.sortLabel(b))))))
  {
    hide LiveTools.Before, Precedes;
    BeforePrecedes(ToLower(s.sortLabel(a)), ToLower(s.sortLabel(b)));
  }

  /** The entry of the chats: their number, the first of them, and whether one is pinned. */
  lemma ChatsEntryIs(s: Settings, chats: seq<Thread>)
    requires chats != []
    ensures var e := ChatsEntry(s, chats);
            && e.place == Chats && e.summary.title.name == "Chats" && e.summary.title.directory == "Chats"
            && e.summary.title.cwd == s.chatsRoot && e.summary.title.rootPaths == []
            && e.summary.count == |chats| && e.summary.latest == chats[0].id
            && e.summary.updatedAt == chats[0].updatedAt && e.summary.latestLabel == s.displayLabel(chats[0])
            && (e.summary.pinned <==> exists i | 0 <= i < |chats| :: s.pinned(chats[i].id))
  {
    if c :| c in chats && s.pinned(c.id) {
      var i :| 0 <= i < |chats| && chats[i] == c;
    }
    if i :| 0 <= i < |chats| && s.pinned(chats[i].id) {
      assert chats[i] in chats;
    }
  }

  /** An entry goes with the chats exactly when it is theirs, or its trimmed name is "chats" in any case. */
  lemma ChatsLikeIff(e: Entry)
    ensures ChatsLike(e)
            <==> e.place == Chats
                 || var name := TrimSpace(e.summary.title.name);
                    |name| == 5 && forall i | 0 <= i < 5 :: Lower(name[i]) == "chats"[i]
  {
    hide TrimSpace;
    assert ToLower("Chats") == "chats";
    var name := TrimSpace(e.summary.title.name);
    if |name| == 5 && forall i | 0 <= i < 5 :: Lower(name[i]) == "chats"[i] {
      assert ToLower(name) == "chats";
    }
    if ToLower(name) == "chats" {
      assert |name| == |ToLower(name)| == 5;
      assert forall i | 0 <= i < 5 :: ToLower(name)[i] == Lower(name[i]);
    }
  }

  // ---- Pins and labels ----

  /** A thread is pinned by its id or by its folder, a project by its id or by its first root. */
  lemma PinsAre(s: Settings, project: Project, t: Thread)
    ensures ThreadPinned(s, t) <==> s.pinned(t.id) || s.pinnedProject(t.cwd)
    ensures var w := ProjectSummary(s, project);
            && w.title == s.titleOf(project) && w.count == 0 && w.updatedAt == 0
            && w.latest == "" && w.latestLabel == ""
            && (w.pinned <==> || s.pinnedProjectId(project.id)
                              || s.pinnedProject(if project.rootPaths == [] then "" else project.rootPaths[0]))
    ensures var w := FolderSummary(s, t);
            && w.title == s.folderTitle(t) && w.count == 0 && w.updatedAt == t.updatedAt && w.latest == t.id
            && w.latestLabel == s.displayLabel(t) && (w.pinned <==> s.pinned(t.id) || s.pinnedProject(t.cwd))
  {
  }

  // ---- The list ----

  /** Some thread before thread `n` is shown in the folder. */
  predicate IsUsed(s: Settings, registry: seq<Project>, threads: seq<Thread>, n: nat, key: string)
    requires n <= |threads|
  {
    exists i | 0 <= i < n :: PlaceOf(s, registry, threads[i]) == InFolder(key)
  }

  lemma UsedOneMore(s: Settings, registry: seq<Project>, threads: seq<Thread>, key: string)
    requires threads != []
    ensures var n := |threads|;
            && IsUsed(s, registry, threads, n - 1, key) == IsUsed(s, registry, threads[..n - 1], n - 1, key)
            && IsUsed(s, registry, threads, n, key)
               == (IsUsed(s, registry, threads, n - 1, key) || PlaceOf(s, registry, threads[n - 1]) == InFolder(key))
  {
    hide PlaceOf;
    var n, front := |threads|, threads[..|threads| - 1];
    assert forall i | 0 <= i < n - 1 :: front[i] == threads[i];
    if PlaceOf(s, registry, threads[n - 1]) == InFolder(key) {
      assert IsUsed(s, registry, threads, n, key);
    }
  }

  /** Each folder that a thread is shown in is listed once. */
  lemma {:induction false} FoldersAre(s: Settings, registry: seq<Project>, threads: seq<Thread>)
    ensures var folders := Folders(s, registry, threads);
            && (forall key :: key in folders <==> IsUsed(s, registry, threads, |threads|, key))
            && forall i, j | 0 <= i < j < |folders| :: folders[i] != folders[j]
  {
    hide PlaceOf, IsUsed;
    if threads == [] {
      NoneIsUsed(s, registry);
    } else {
      var front := threads[..|threads| - 1];
      FoldersAre(s, registry, front);
      forall key ensures key in Folders(s, registry, threads) <==> IsUsed(s, registry, threads, |threads|, key) {
        UsedOneMore(s, registry, threads, key);
      }
    }
  }

  lemma NoneIsUsed(s: Settings, registry: seq<Project>)
    ensures forall key :: !IsUsed(s, registry, [], 0, key)
  {
  }

  /** The folders are listed in the order of their first threads. */
  lemma {:induction false} FoldersAreInOrder(
    s: Settings, registry: seq<Project>, threads: seq<Thread>, i: nat, j: nat, k: nat)
    requires i < j < |Folders(s, registry, threads)| && k < |threads|
    requires PlaceOf(s, registry, threads[k]) == InFolder(Folders(s, registry, threads)[j])
    ensures IsUsed(s, registry, threads, k, Folders(s, registry, threads)[i])
  {
    hide PlaceOf, IsUsed;
    var front := threads[..|threads| - 1];
    var before, folders := Folders(s, registry, front), Folders(s, registry, threads);
    FoldersAre(s, registry, front);
    UsedOneMore(s, registry, threads, folders[i]);
    UsedOneMore(s, registry, threads, folders[j]);
    assert i < |before| ==> folders[i] == before[i] && before[i] in before;
    if k < |front| {
      UsedHere(s, registry, front, k, folders[j]);
      assert folders[j] in before;
      assert j < |before|;
      FoldersAreInOrder(s, registry, front, i, j, k);
      UsedInFront(s, registry, threads, k, folders[i]);
    }
  }

  lemma UsedHere(s: Settings, registry: seq<Project>, threads: seq<Thread>, k: nat, key: string)
    requires k < |threads| && PlaceOf(s, registry, threads[k]) == InFolder(key)
    ensures IsUsed(s, registry, threads, |threads|, key)
  {
    hide PlaceOf;
  }

  lemma UsedInFront(s: Settings, registry: seq<Project>, threads: seq<Thread>, k: nat, key: string)
    requires k < |threads|
    ensures IsUsed(s, registry, threads[..|threads| - 1], k, key) == IsUsed(s, registry, threads, k, key)
  {
    hide PlaceOf;
    assert forall i | 0 <= i < k :: threads[..|threads| - 1][i] == threads[i];
  }

  /** A project is listed with its own threads, and without any as it is registered. */
  lemma ProjectEntryIs(s: Settings, registry: seq<Project>, threads: seq<Thread>, project: Project)
    ensures var e := ProjectEntry(s, registry, threads, project);
            && e.place == InProject(project.id)
            && ((forall i | 0 <= i < |threads| :: PlaceOf(s, registry, threads[i]) != InProject(project.id)) ==>
                  e.summary == ProjectSummary(s, project))
            && e.summary.count == Count(Places(s, registry, threads), InProject(project.id))
  {
    hide PlaceOf, ProjectSummary, SummaryOf;
    var place := InProject(project.id);
    CountIsNumber(s, registry, threads, place);
    if forall i | 0 <= i < |threads| :: PlaceOf(s, registry, threads[i]) != place {
      assert place !in Places(s, registry, threads);
    }
    NewProjectIsEmpty(s, project);
  }

  lemma NewProjectIsEmpty(s: Settings, project: Project)
    ensures ProjectSummary(s, project).count == 0
  {
  }
}
