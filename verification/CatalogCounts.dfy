/** Building the catalog: how threads are counted, dated and listed. */
module CatalogCounts {
  import opened Options
  import opened Text
  import opened Catalog
  import LiveTools

  /** Where a thread is shown; ids and folders are compared as text. */
  datatype Place = Hidden | Chats | InProject(id: string) | InFolder(key: string)

  function PlaceOf(s: Settings, registry: seq<Project>, t: Thread): Place {
    if !s.visible(t) then Hidden
    else if s.isChat(t) then Chats
    else
      var m := Match(s.normalize, registry, t.cwd);
      if m.Some? then InProject(registry[m.value].id)
      else InFolder(if s.normalize(t.cwd) == "" then "thread:" + t.id else s.normalize(t.cwd))
  }

  /** How many of the threads are shown in `place` */
  function Count(places: seq<Place>, place: Place): nat {
    multiset(places)[place]
  }

  function Places(s: Settings, registry: seq<Project>, threads: seq<Thread>): seq<Place> {
    seq(|threads|, i requires 0 <= i < |threads| => PlaceOf(s, registry, threads[i]))
  }

  /** What a workspace shows: its name, and of its threads the number, the latest and whether one is pinned */
  datatype Summary = Summary(
    title: Title, count: nat, updatedAt: int, latest: string, latestLabel: string, pinned: bool)

  const NOTHING := Summary(Title("", "", "", []), 0, 0, "", "", false)

  predicate ThreadPinned(s: Settings, t: Thread) {
    s.pinned(t.id) || s.pinnedProject(t.cwd)
  }

  /** registryWorkspace */
  function ProjectSummary(s: Settings, project: Project): Summary {
    var root := if project.rootPaths == [] then "" else project.rootPaths[0];
    Summary(s.titleOf(project), 0, 0, "", "", s.pinnedProjectId(project.id) || s.pinnedProject(root))
  }

  /** threadWorkspace */
  function FolderSummary(s: Settings, t: Thread): Summary {
    Summary(s.folderTitle(t), 0, t.updatedAt, t.id, s.displayLabel(t), ThreadPinned(s, t))
  }

  /** The workspace that the first thread of a project or folder finds */
  function NewWorkspace(s: Settings, registry: seq<Project>, t: Thread): Summary {
    match PlaceOf(s, registry, t)
    case InProject(_) => ProjectSummary(s, registry[Match(s.normalize, registry, t.cwd).value])
    case InFolder(_) => FolderSummary(s, t)
    case _ => NOTHING
  }

  /** addThreadToProjectWorkspace */
  function Added(s: Settings, w: Summary, t: Thread): Summary {
    var counted := w.(count := w.count + 1, pinned := w.pinned || ThreadPinned(s, t));
    if t.updatedAt > w.updatedAt
    then counted.(updatedAt := t.updatedAt, latest := t.id, latestLabel := s.displayLabel(t))
    else counted
  }

  /** The workspace of `place` */
  function SummaryOf(s: Settings, registry: seq<Project>, threads: seq<Thread>, place: Place): Summary {
    if threads == [] then NOTHING
    else
      var before, t := SummaryOf(s, registry, threads[..|threads| - 1], place), threads[|threads| - 1];
      if PlaceOf(s, registry, t) != place then before
      else Added(s, if before.count == 0 then NewWorkspace(s, registry, t) else before, t)
  }

  /** The folders that have their own entry, in the order in which they turn up */
  function Folders(s: Settings, registry: seq<Project>, threads: seq<Thread>): seq<string> {
    if threads == [] then []
    else
      var before, p := Folders(s, registry, threads[..|threads| - 1]), PlaceOf(s, registry, threads[|threads| - 1]);
      if p.InFolder? && p.key !in before then before + [p.key] else before
  }

  function ChatsOf(s: Settings, registry: seq<Project>, threads: seq<Thread>): seq<Thread> {
    if threads == [] then []
    else
      var before, t := ChatsOf(s, registry, threads[..|threads| - 1]), threads[|threads| - 1];
      if PlaceOf(s, registry, t) == Chats then before + [t] else before
  }

  datatype Entry = Entry(place: Place, summary: Summary)

  /** threadLess: pinned before others, later before earlier, then by label */
  predicate ThreadLess(s: Settings, a: Thread, b: Thread) {
    if s.pinned(a.id) != s.pinned(b.id) then s.pinned(a.id)
    else if a.updatedAt != b.updatedAt then a.updatedAt > b.updatedAt
    else LiveTools.Before(ToLower(s.sortLabel(a)), ToLower(s.sortLabel(b)))
  }

  /** An entry of the catalog whose fields change as threads are added */
  class Workspace {
    const place: Place
    const title: Title
    var threadCount: nat
    var updatedAt: int
    var latestThread: string
    var latestThreadLabel: string
    var pinned: bool

    function Value(): Entry
      reads this
    {
      Entry(place, Summary(title, threadCount, updatedAt, latestThread, latestThreadLabel, pinned))
    }

    constructor ForProject(s: Settings, project: Project)
      ensures Value() == Entry(InProject(project.id), ProjectSummary(s, project))
    {
      var root := if project.rootPaths == [] then "" else project.rootPaths[0];
      place, title := InProject(project.id), s.titleOf(project);
      threadCount, updatedAt, latestThread, latestThreadLabel := 0, 0, "", "";
      pinned := s.pinnedProjectId(project.id) || s.pinnedProject(root);
    }

    constructor ForFolder(s: Settings, key: string, thread: Thread)
      ensures Value() == Entry(InFolder(key), FolderSummary(s, thread))
    {
      place, title, threadCount := InFolder(key), s.folderTitle(thread), 0;
      updatedAt, latestThread, latestThreadLabel := thread.updatedAt, thread.id, s.displayLabel(thread);
      pinned := s.pinned(thread.id) || s.pinnedProject(thread.cwd);
    }

    method AddThread(s: Settings, thread: Thread)
      modifies this
      ensures Value() == Entry(place, Added(s, old(Value()).summary, thread))
    {
      threadCount := threadCount + 1;
      if s.pinned(thread.id) || s.pinnedProject(thread.cwd) {
        pinned := true;
      }
      if thread.updatedAt > updatedAt {
        updatedAt, latestThread, latestThreadLabel := thread.updatedAt, thread.id, s.displayLabel(thread);
      }
    }
  }

  lemma OneMoreThread(s: Settings, registry: seq<Project>, threads: seq<Thread>, t: Thread, place: Place)
    ensures SummaryOf(s, registry, threads + [t], place)
            == var before := SummaryOf(s, registry, threads, place);
               if PlaceOf(s, registry, t) != place then before
               else Added(s, if before.count == 0 then NewWorkspace(s, registry, t) else before, t)
    ensures var before, p := Folders(s, registry, threads), PlaceOf(s, registry, t);
            Folders(s, registry, threads + [t]) == if p.InFolder? && p.key !in before then before + [p.key] else before
    ensures ChatsOf(s, registry, threads + [t])
            == if PlaceOf(s, registry, t) == Chats then ChatsOf(s, registry, threads) + [t]
               else ChatsOf(s, registry, threads)
  {
    assert (threads + [t])[..|threads|] == threads;
  }

  predicate Shown(s: Settings, registry: seq<Project>, threads: seq<Thread>, place: Place) {
    SummaryOf(s, registry, threads, place).count > 0
  }

  lemma {:induction false} FolderIffShown(s: Settings, registry: seq<Project>, threads: seq<Thread>, key: string)
    ensures key in Folders(s, registry, threads) <==> Shown(s, registry, threads, InFolder(key))
  {
    hide PlaceOf, NewWorkspace;
    if threads == [] {
    } else {
      FolderIffShown(s, registry, threads[..|threads| - 1], key);
    }
  }

  function EntryAt(s: Settings, registry: seq<Project>, threads: seq<Thread>, place: Place): Entry {
    Entry(place, SummaryOf(s, registry, threads, place))
  }

  /** The entry of a registered project, with or without threads */
  function ProjectEntry(s: Settings, registry: seq<Project>, threads: seq<Thread>, project: Project): Entry {
    if Shown(s, registry, threads, InProject(project.id)) then EntryAt(s, registry, threads, InProject(project.id))
    else Entry(InProject(project.id), ProjectSummary(s, project))
  }

  /** The entries of projects and folders: all projects in registry order, then the folders */
  function Listed(s: Settings, registry: seq<Project>, threads: seq<Thread>): seq<Entry> {
    var folders := Folders(s, registry, threads);
    seq(|registry|, i requires 0 <= i < |registry| => ProjectEntry(s, registry, threads, registry[i]))
    + seq(|folders|, i requires 0 <= i < |folders| => EntryAt(s, registry, threads, InFolder(folders[i])))
  }

  // ---- The sorts ----

  function Where(entries: seq<Entry>, wanted: Entry -> bool): seq<Entry> {
    if entries == [] then []
    else
      var last := entries[|entries| - 1];
      Where(entries[..|entries| - 1], wanted) + if wanted(last) then [last] else []
  }

  /** sort.SliceStable: the entries with `wanted`, then the others, each in the order they had */
  function Partitioned(entries: seq<Entry>, wanted: Entry -> bool): seq<Entry> {
    Where(entries, wanted) + Where(entries, e => !wanted(e))
  }

  /** Pinned entries come first, each part in the order it had. */
  function PinnedFirst(entries: seq<Entry>): seq<Entry> {
    Partitioned(entries, (e: Entry) => e.summary.pinned)
  }

  /** isChatsProjectWorkspace: the entry of the chats, or one with their name */
  predicate ChatsLike(e: Entry) {
    e.place == Chats || EqualFold(TrimSpace(e.summary.title.name), "Chats")
  }

  predicate ChatsLast(entries: seq<Entry>) {
    forall i, j | 0 <= i < j < |entries| :: ChatsLike(entries[i]) ==> ChatsLike(entries[j])
  }

  predicate ByThreadLess(s: Settings, chats: seq<Thread>) {
    forall i, j | 0 <= i < j < |chats| :: !ThreadLess(s, chats[j], chats[i])
  }

  /** What sort.Slice promises: the same chats, none before one that is less */
  predicate ChatOrder(s: Settings, chats: seq<Thread>, sorted: seq<Thread>) {
    multiset(sorted) == multiset(chats) && ByThreadLess(s, sorted)
  }

  /** The entry of the chats, named and dated by the first of them */
  function ChatsEntry(s: Settings, chats: seq<Thread>): Entry
    requires chats != []
  {
    Entry(Chats, Summary(Title("Chats", "Chats", s.chatsRoot, []), |chats|, chats[0].updatedAt, chats[0].id,
                         s.displayLabel(chats[0]), exists c | c in chats :: s.pinned(c.id)))
  }

  /** Without chats the listed entries, pinned ones first; else also the chats, in an order with them last */
  predicate IsCatalog(
    s: Settings, registry: seq<Project>, threads: seq<Thread>, entries: seq<Entry>, chats: seq<Thread>)
  {
    var listed := PinnedFirst(Listed(s, registry, threads));
    && ChatOrder(s, ChatsOf(s, registry, threads), chats)
    && if chats == [] then entries == listed
       else ChatsLast(entries) && multiset(entries) == multiset(listed + [ChatsEntry(s, chats)])
  }

  /** The maps hold the workspaces of the places shown so far. */
  ghost predicate Tracks(
    s: Settings, registry: seq<Project>, threads: seq<Thread>,
    byId: map<string, Workspace>, extras: map<string, Workspace>)
    reads set k | k in byId :: byId[k], set k | k in extras :: extras[k]
  {
    && (forall k :: k in byId <==> Shown(s, registry, threads, InProject(k)))
    && (forall k | k in byId :: byId[k].Value() == EntryAt(s, registry, threads, InProject(k)))
    && (forall k :: k in extras <==> Shown(s, registry, threads, InFolder(k)))
    && (forall k | k in extras :: extras[k].Value() == EntryAt(s, registry, threads, InFolder(k)))
  }

  lemma NothingYet(s: Settings, registry: seq<Project>)
    ensures Tracks(s, registry, [], map[], map[])
    ensures Folders(s, registry, []) == [] && ChatsOf(s, registry, []) == []
  {
  }

  /** A thread of another place changes nothing. */
  lemma OtherPlace(s: Settings, registry: seq<Project>, threads: seq<Thread>, t: Thread, place: Place)
    requires PlaceOf(s, registry, t) != place
    ensures EntryAt(s, registry, threads + [t], place) == EntryAt(s, registry, threads, place)
    ensures Shown(s, registry, threads + [t], place) == Shown(s, registry, threads, place)
  {
    hide PlaceOf;
    OneMoreThread(s, registry, threads, t, place);
  }

  lemma OtherPlaces(s: Settings, registry: seq<Project>, threads: seq<Thread>, t: Thread)
    ensures forall k: string | InProject(k) != PlaceOf(s, registry, t) ::
              && EntryAt(s, registry, threads + [t], InProject(k)) == EntryAt(s, registry, threads, InProject(k))
              && Shown(s, registry, threads + [t], InProject(k)) == Shown(s, registry, threads, InProject(k))
    ensures forall k: string | InFolder(k) != PlaceOf(s, registry, t) ::
              && EntryAt(s, registry, threads + [t], InFolder(k)) == EntryAt(s, registry, threads, InFolder(k))
              && Shown(s, registry, threads + [t], InFolder(k)) == Shown(s, registry, threads, InFolder(k))
  {
    hide PlaceOf, EntryAt, Shown;
    forall place | place != PlaceOf(s, registry, t)
      ensures EntryAt(s, registry, threads + [t], place) == EntryAt(s, registry, threads, place)
      ensures Shown(s, registry, threads + [t], place) == Shown(s, registry, threads, place)
    {
      OtherPlace(s, registry, threads, t, place);
    }
  }

  lemma NeitherProjectNorFolder(
    s: Settings, registry: seq<Project>, threads: seq<Thread>, t: Thread,
    byId: map<string, Workspace>, extras: map<string, Workspace>)
    requires Tracks(s, registry, threads, byId, extras)
    requires !PlaceOf(s, registry, t).InProject? && !PlaceOf(s, registry, t).InFolder?
    ensures Tracks(s, registry, threads + [t], byId, extras)
  {
    hide PlaceOf, EntryAt, Shown;
    OtherPlaces(s, registry, threads, t);
  }

  /** A thread of the place is added to its workspace, new or not. */
  lemma OwnPlace(s: Settings, registry: seq<Project>, threads: seq<Thread>, t: Thread, place: Place)
    requires PlaceOf(s, registry, t) == place && (place.InProject? || place.InFolder?)
    ensures Shown(s, registry, threads + [t], place)
    ensures EntryAt(s, registry, threads + [t], place)
            == Entry(place, Added(s, if Shown(s, registry, threads, place) then SummaryOf(s, registry, threads, place)
                                     else NewWorkspace(s, registry, t), t))
  {
    hide PlaceOf;
    OneMoreThread(s, registry, threads, t, place);
  }

  method AddToProject(
    s: Settings, registry: seq<Project>, ghost threads: seq<Thread>, t: Thread, project: Project,
    byId: map<string, Workspace>, ghost extras: map<string, Workspace>) returns (next: map<string, Workspace>)
    requires Tracks(s, registry, threads, byId, extras) && PlaceOf(s, registry, t) == InProject(project.id)
    requires NewWorkspace(s, registry, t) == ProjectSummary(s, project)
    modifies set k | k in byId :: byId[k]
    ensures Tracks(s, registry, threads + [t], next, extras)
    ensures forall k | k in next :: fresh(next[k]) || (k in byId && next[k] == byId[k])
  {
    hide PlaceOf, NewWorkspace, ProjectSummary, SummaryOf, Shown, Added;
    OtherPlaces(s, registry, threads, t);
    var id := project.id;
    OwnPlace(s, registry, threads, t, InProject(id));
    next := byId;
    if id !in next {
      var w := new Workspace.ForProject(s, project);
      next := next[id := w];
    }
    next[id].AddThread(s, t);
  }

  method AddToFolder(
    s: Settings, registry: seq<Project>, ghost threads: seq<Thread>, t: Thread, key: string,
    ghost byId: map<string, Workspace>, extras: map<string, Workspace>) returns (next: map<string, Workspace>)
    requires Tracks(s, registry, threads, byId, extras) && PlaceOf(s, registry, t) == InFolder(key)
    modifies set k | k in extras :: extras[k]
    ensures Tracks(s, registry, threads + [t], byId, next)
    ensures forall k | k in next :: fresh(next[k]) || (k in extras && next[k] == extras[k])
  {
    hide PlaceOf, FolderSummary, SummaryOf, Shown, Added;
    OtherPlaces(s, registry, threads, t);
    OwnPlace(s, registry, threads, t, InFolder(key));
    next := extras;
    if key !in next {
      var w := new Workspace.ForFolder(s, key, t);
      next := next[key := w];
    }
    next[key].AddThread(s, t);
  }

  lemma TracksFolder(
    s: Settings, registry: seq<Project>, threads: seq<Thread>,
    byId: map<string, Workspace>, extras: map<string, Workspace>, key: string)
    requires Tracks(s, registry, threads, byId, extras)
    ensures key in extras <==> Shown(s, registry, threads, InFolder(key))
  {
  }

  /** The loop over the threads */
  method Distribute(s: Settings, threads: seq<Thread>, registry: seq<Project>)
    returns (byId: map<string, Workspace>, extras: map<string, Workspace>, order: seq<string>, chats: seq<Thread>)
    ensures Tracks(s, registry, threads, byId, extras)
    ensures order == Folders(s, registry, threads)
    ensures chats == ChatsOf(s, registry, threads)
  {
    hide Match, Added, TrimSpace, SummaryOf, Folders, ChatsOf, Tracks;
    byId, extras, order, chats := map[], map[], [], [];
    NothingYet(s, registry);
    for i := 0 to |threads|
      invariant forall k | k in byId :: fresh(byId[k])
      invariant forall k | k in extras :: fresh(extras[k])
      invariant Tracks(s, registry, threads[..i], byId, extras)
      invariant order == Folders(s, registry, threads[..i])
      invariant chats == ChatsOf(s, registry, threads[..i])
    {
      var t := threads[i];
      ghost var p := PlaceOf(s, registry, t);
      assert threads[..i + 1] == threads[..i] + [t];
      OneMoreThread(s, registry, threads[..i], t, p);
      if !s.visible(t) {
        NeitherProjectNorFolder(s, registry, threads[..i], t, byId, extras);
        continue;
      }
      if s.isChat(t) {
        chats := chats + [t];
        NeitherProjectNorFolder(s, registry, threads[..i], t, byId, extras);
        continue;
      }
      var m := MatchRegistryProject(s.normalize, registry, t.cwd);
      if m.Some? {
        byId := AddToProject(s, registry, threads[..i], t, registry[m.value], byId, extras);
        continue;
      }
      var key := s.normalize(t.cwd);
      if key == "" {
        key := "thread:" + t.id;
      }
      FolderIffShown(s, registry, threads[..i], key);
      TracksFolder(s, registry, threads[..i], byId, extras, key);
      if key !in extras {
        order := order + [key];
      }
      extras := AddToFolder(s, registry, threads[..i], t, key, byId, extras);
    }
    assert threads[..|threads|] == threads;
  }

  /** The order of strings is a strict total one. */
  lemma {:induction false} BeforeIsStrict(a: string, b: string, c: string)
    ensures !LiveTools.Before(a, a)
    ensures LiveTools.Before(a, b) && LiveTools.Before(b, c) ==> LiveTools.Before(a, c)
    ensures !LiveTools.Before(a, b) && !LiveTools.Before(b, c) ==> !LiveTools.Before(a, c)
    decreases |a| + |b| + |c|
  {
    if a != "" && b != "" && c != "" {
      BeforeIsStrict(a[1..], b[1..], c[1..]);
    } else if a != "" {
      BeforeIsStrict(a[1..], "", "");
    }
  }

  lemma ThreadLessIsStrict(s: Settings, a: Thread, b: Thread, c: Thread)
    ensures !ThreadLess(s, a, a)
    ensures ThreadLess(s, a, b) && ThreadLess(s, b, c) ==> ThreadLess(s, a, c)
    ensures !ThreadLess(s, a, b) && !ThreadLess(s, b, c) ==> !ThreadLess(s, a, c)
  {
    hide LiveTools.Before;
    BeforeIsStrict(ToLower(s.sortLabel(a)), ToLower(s.sortLabel(b)), ToLower(s.sortLabel(c)));
  }

  function InsertChat(s: Settings, chats: seq<Thread>, t: Thread): seq<Thread> {
    if chats != [] && ThreadLess(s, t, chats[|chats| - 1])
    then InsertChat(s, chats[..|chats| - 1], t) + [chats[|chats| - 1]]
    else chats + [t]
  }

  /** One of the orders that sort.Slice may return */
  function SortedChats(s: Settings, chats: seq<Thread>): seq<Thread> {
    if chats == [] then []
    else InsertChat(s, SortedChats(s, chats[..|chats| - 1]), chats[|chats| - 1])
  }

  lemma {:induction false} InsertAddsChat(s: Settings, chats: seq<Thread>, t: Thread)
    ensures multiset(InsertChat(s, chats, t)) == multiset(chats) + multiset{t}
  {
    hide ThreadLess;
    if chats == [] {
    } else {
      var front, last := chats[..|chats| - 1], chats[|chats| - 1];
      assert chats == front + [last];
      InsertAddsChat(s, front, t);
    }
  }

  lemma AppendKeepsOrder(s: Settings, chats: seq<Thread>, last: Thread)
    requires ByThreadLess(s, chats) && forall c | c in chats :: !ThreadLess(s, last, c)
    ensures ByThreadLess(s, chats + [last])
  {
    hide ThreadLess;
    assert forall i | 0 <= i < |chats| :: chats[i] in chats;
  }

  lemma {:induction false} InsertKeepsOrder(s: Settings, chats: seq<Thread>, t: Thread)
    requires ByThreadLess(s, chats)
    ensures ByThreadLess(s, InsertChat(s, chats, t))
  {
    hide ThreadLess;
    if chats == [] {
    } else {
      var front, last := chats[..|chats| - 1], chats[|chats| - 1];
      assert chats == front + [last];
      if ThreadLess(s, t, last) {
        InsertKeepsOrder(s, front, t);
        InsertAddsChat(s, front, t);
        forall c | c in InsertChat(s, front, t) ensures !ThreadLess(s, last, c) {
          assert c in multiset(InsertChat(s, front, t));
          ThreadLessIsStrict(s, t, last, t);
          ThreadLessIsStrict(s, t, t, t);
        }
        AppendKeepsOrder(s, InsertChat(s, front, t), last);
      } else {
        forall c | c in chats ensures !ThreadLess(s, t, c) {
          ThreadLessIsStrict(s, t, last, c);
        }
        AppendKeepsOrder(s, chats, t);
      }
    }
  }

  lemma {:induction false} SortedChatsAreOrdered(s: Settings, chats: seq<Thread>)
    ensures ChatOrder(s, chats, SortedChats(s, chats))
  {
    if chats == [] {
    } else {
      var front, last := chats[..|chats| - 1], chats[|chats| - 1];
      assert chats == front + [last];
      SortedChatsAreOrdered(s, front);
      InsertAddsChat(s, SortedChats(s, front), last);
      InsertKeepsOrder(s, SortedChats(s, front), last);
    }
  }

  lemma {:induction false} WhereSelects(entries: seq<Entry>, wanted: Entry -> bool)
    ensures forall e :: multiset(Where(entries, wanted))[e] == if wanted(e) then multiset(entries)[e] else 0
  {
    if entries == [] {
    } else {
      var front, last := entries[..|entries| - 1], entries[|entries| - 1];
      assert entries == front + [last];
      WhereSelects(front, wanted);
    }
  }

  lemma SelectedAreWanted(entries: seq<Entry>, wanted: Entry -> bool)
    ensures forall i | 0 <= i < |Where(entries, wanted)| :: wanted(Where(entries, wanted)[i])
  {
    WhereSelects(entries, wanted);
    var selected := Where(entries, wanted);
    forall i | 0 <= i < |selected| ensures wanted(selected[i]) {
      assert selected[i] in multiset(selected);
    }
  }

  lemma PartitionedIsPermutation(entries: seq<Entry>, wanted: Entry -> bool)
    ensures multiset(Partitioned(entries, wanted)) == multiset(entries)
  {
    hide Where;
    WhereSelects(entries, wanted);
    WhereSelects(entries, e => !wanted(e));
    assert multiset(Where(entries, wanted)) + multiset(Where(entries, e => !wanted(e))) == multiset(entries);
  }

  lemma PartitionedIsOrdered(entries: seq<Entry>, wanted: Entry -> bool)
    ensures var parts := Partitioned(entries, wanted);
            forall i, j | 0 <= i < j < |parts| :: wanted(parts[j]) ==> wanted(parts[i])
  {
    hide Where;
    SelectedAreWanted(entries, wanted);
    SelectedAreWanted(entries, e => !wanted(e));
  }

  /** sort.Slice that brings entries like the chats to the end */
  function WithChatsLast(entries: seq<Entry>): seq<Entry> {
    Partitioned(entries, e => !ChatsLike(e))
  }

  lemma WithChatsLastIsOrdered(entries: seq<Entry>)
    ensures multiset(WithChatsLast(entries)) == multiset(entries) && ChatsLast(WithChatsLast(entries))
  {
    hide ChatsLike;
    PartitionedIsPermutation(entries, e => !ChatsLike(e));
    PartitionedIsOrdered(entries, e => !ChatsLike(e));
  }

  /** The two loops that list the workspaces */
  method ListWorkspaces(
    s: Settings, ghost threads: seq<Thread>, registry: seq<Project>,
    byId: map<string, Workspace>, extras: map<string, Workspace>, order: seq<string>)
    returns (entries: seq<Entry>)
    requires Tracks(s, registry, threads, byId, extras) && order == Folders(s, registry, threads)
    ensures entries == Listed(s, registry, threads)
  {
    hide PlaceOf, SummaryOf, Folders, ProjectSummary;
    entries := [];
    for i := 0 to |registry|
      invariant Tracks(s, registry, threads, byId, extras)
      invariant |entries| == i
      invariant forall j | 0 <= j < i :: entries[j] == ProjectEntry(s, registry, threads, registry[j])
    {
      var id := registry[i].id;
      if id in byId {
        entries := entries + [byId[id].Value()];
      } else {
        var empty := new Workspace.ForProject(s, registry[i]);
        entries := entries + [empty.Value()];
      }
    }
    for i := 0 to |order|
      invariant Tracks(s, registry, threads, byId, extras)
      invariant |entries| == |registry| + i
      invariant forall j | 0 <= j < |registry| :: entries[j] == ProjectEntry(s, registry, threads, registry[j])
      invariant forall j | 0 <= j < i :: entries[|registry| + j] == EntryAt(s, registry, threads, InFolder(order[j]))
    {
      FolderIffShown(s, registry, threads, order[i]);
      entries := entries + [extras[order[i]].Value()];
    }
  }

  /** registryProjectCatalog up to the keys of its entries */
  method BuildCatalog(s: Settings, threads: seq<Thread>, registry: seq<Project>)
    returns (entries: seq<Entry>, chats: seq<Thread>)
    ensures IsCatalog(s, registry, threads, entries, chats)
  {
    hide PlaceOf, SummaryOf, Folders, ChatsOf, ThreadLess, Listed, PinnedFirst, WithChatsLast, ChatsLast, Tracks;
    var byId, extras, order;
    byId, extras, order, chats := Distribute(s, threads, registry);
    entries := ListWorkspaces(s, threads, registry, byId, extras, order);
    entries := PinnedFirst(entries);
    SortedChatsAreOrdered(s, chats);
    chats := SortedChats(s, chats);
    if |chats| > 0 {
      WithChatsLastIsOrdered(entries + [ChatsEntry(s, chats)]);
      entries := WithChatsLast(entries + [ChatsEntry(s, chats)]);
    }
  }
}
