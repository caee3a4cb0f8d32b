/** What the catalog adds up to: every visible thread once, dated by its latest thread. */
module CatalogTotals {
  import opened Text
  import opened Catalog
  import opened CatalogCounts
  import LiveTools

  lemma PlacesOneMore(s: Settings, registry: seq<Project>, threads: seq<Thread>)
    requires threads != []
    ensures Places(s, registry, threads)
            == Places(s, registry, threads[..|threads| - 1]) + [PlaceOf(s, registry, threads[|threads| - 1])]
  {
    hide PlaceOf;
  }

  /** A workspace's count is the number of threads of its place. */
  lemma {:induction false} CountIsNumber(s: Settings, registry: seq<Project>, threads: seq<Thread>, place: Place)
    ensures SummaryOf(s, registry, threads, place).count == Count(Places(s, registry, threads), place)
  {
    hide PlaceOf, Places;
    if threads == [] {
      NoPlaces(s, registry);
    } else {
      CountIsNumber(s, registry, threads[..|threads| - 1], place);
      PlacesOneMore(s, registry, threads);
    }
  }

  lemma NoPlaces(s: Settings, registry: seq<Project>)
    ensures Places(s, registry, []) == []
  {
  }

  lemma {:induction false} ChatsAreCounted(s: Settings, registry: seq<Project>, threads: seq<Thread>)
    ensures |ChatsOf(s, registry, threads)| == Count(Places(s, registry, threads), Chats)
  {
    hide PlaceOf, Places;
    if threads == [] {
      NoPlaces(s, registry);
    } else {
      ChatsAreCounted(s, registry, threads[..|threads| - 1]);
      PlacesOneMore(s, registry, threads);
    }
  }

  // ---- Dates ----

  /** Thread `i` is the first of its place with the latest time. */
  predicate IsLatest(s: Settings, registry: seq<Project>, threads: seq<Thread>, place: Place, i: nat)
    requires i < |threads|
  {
    && PlaceOf(s, registry, threads[i]) == place
    && (forall j | 0 <= j < |threads| ::
          PlaceOf(s, registry, threads[j]) == place ==> threads[j].updatedAt <= threads[i].updatedAt)
    && forall j | 0 <= j < i ::
         PlaceOf(s, registry, threads[j]) == place ==> threads[j].updatedAt < threads[i].updatedAt
  }

  predicate NoneAfter(s: Settings, registry: seq<Project>, threads: seq<Thread>, place: Place, time: int) {
    forall t | t in threads :: PlaceOf(s, registry, t) == place ==> t.updatedAt <= time
  }

  lemma {:induction false} UpdatedAtBounds(s: Settings, registry: seq<Project>, threads: seq<Thread>, place: Place)
    ensures var w := SummaryOf(s, registry, threads, place);
            && NoneAfter(s, registry, threads, place, w.updatedAt)
            && (w.count == 0 ==> forall t | t in threads :: PlaceOf(s, registry, t) != place)
            && (w.count == 0 ==> w == NOTHING)
            && (!place.InFolder? ==> w.updatedAt >= 0)
  {
    hide PlaceOf;
    if threads == [] {
    } else {
      var before, t := threads[..|threads| - 1], threads[|threads| - 1];
      UpdatedAtBounds(s, registry, before, place);
      assert threads == before + [t];
    }
  }

  /**
   A workspace is dated by the first of its threads with the latest time. A project that has none
   with a time above 0 is dated 0 and names no thread.
   */
  lemma {:induction false} UpdatedAtIsLatest(s: Settings, registry: seq<Project>, threads: seq<Thread>, place: Place)
    ensures var w := SummaryOf(s, registry, threads, place);
            || (&& w.updatedAt == 0 && w.latest == "" && (place.InFolder? ==> w.count == 0)
                && NoneAfter(s, registry, threads, place, 0))
            || exists i | 0 <= i < |threads| :: IsLatest(s, registry, threads, place, i)
                 && w.updatedAt == threads[i].updatedAt && w.latest == threads[i].id
  {
    hide PlaceOf, IsLatest, NoneAfter;
    UpdatedAtBounds(s, registry, threads, place);
    if threads == [] {
    } else {
      var before, t := threads[..|threads| - 1], threads[|threads| - 1];
      UpdatedAtIsLatest(s, registry, before, place);
      UpdatedAtBounds(s, registry, before, place);
      var b, w := SummaryOf(s, registry, before, place), SummaryOf(s, registry, threads, place);
      if && PlaceOf(s, registry, t) == place && w.updatedAt == t.updatedAt
         && (b.updatedAt < t.updatedAt || (place.InFolder? && b.count == 0)) {
        LastIsLatest(s, registry, before, t, place, b);
        assert threads == before + [t];
      } else if i :| 0 <= i < |before| && IsLatest(s, registry, before, place, i)
                     && b.updatedAt == before[i].updatedAt && b.latest == before[i].id {
        LatestStays(s, registry, before, t, place, i);
        assert threads == before + [t];
      }
    }
  }

  lemma LastIsLatest(s: Settings, registry: seq<Project>, before: seq<Thread>, t: Thread, place: Place, b: Summary)
    requires PlaceOf(s, registry, t) == place
    requires NoneAfter(s, registry, before, place, b.updatedAt)
    requires b.updatedAt < t.updatedAt || forall x | x in before :: PlaceOf(s, registry, x) != place
    ensures IsLatest(s, registry, before + [t], place, |before|)
  {
    hide PlaceOf;
    assert forall j | 0 <= j < |before| :: before[j] in before;
  }

  lemma LatestStays(s: Settings, registry: seq<Project>, before: seq<Thread>, t: Thread, place: Place, i: nat)
    requires i < |before| && IsLatest(s, registry, before, place, i)
    requires PlaceOf(s, registry, t) == place ==> t.updatedAt <= before[i].updatedAt
    ensures IsLatest(s, registry, before + [t], place, i)
  {
    hide PlaceOf;
  }

  lemma FirstChatLeads(s: Settings, chats: seq<Thread>, sorted: seq<Thread>)
    requires ChatOrder(s, chats, sorted) && chats != []
    ensures sorted != [] && sorted[0] in chats
    ensures forall c | c in chats :: c in sorted && !ThreadLess(s, c, sorted[0])
  {
    hide ThreadLess;
    assert chats[0] in multiset(sorted);
    assert sorted[0] in multiset(chats);
    forall c | c in chats ensures c in sorted && !ThreadLess(s, c, sorted[0]) {
      assert c in multiset(sorted);
      ThreadLessIsStrict(s, c, c, c);
    }
  }

  /**
   The chats are dated by the chat that comes first, and pinned chats come first: that is the latest
   time of all chats exactly when no chat is pinned or a pinned one has the latest time.
   */
  lemma ChatsAreDatedByLatestIff(s: Settings, chats: seq<Thread>, sorted: seq<Thread>)
    requires ChatOrder(s, chats, sorted) && sorted != []
    ensures (forall c | c in chats :: c.updatedAt <= ChatsEntry(s, sorted).summary.updatedAt)
            <==> || (forall c | c in chats :: !s.pinned(c.id))
                 || (exists p | p in chats :: s.pinned(p.id) && forall c | c in chats :: c.updatedAt <= p.updatedAt)
  {
    hide LiveTools.Before;
    assert sorted[0] in multiset(chats);
    FirstChatLeads(s, chats, sorted);
    var h := sorted[0];
    if p :| p in chats && s.pinned(p.id) && forall c | c in chats :: c.updatedAt <= p.updatedAt {
      assert !ThreadLess(s, p, h);
    }
    forall c | c in chats ensures !ThreadLess(s, c, h) {
    }
  }

  /** Two chats for which the date is wrong: the pinned one comes first and is the older one. */
  lemma PinnedChatHidesLater(s: Settings, pinned: string, other: string) returns (chats: seq<Thread>)
    requires s.pinned(pinned) && !s.pinned(other)
    ensures chats != [] && exists sorted :: ChatOrder(s, chats, sorted)
    ensures forall sorted | ChatOrder(s, chats, sorted) && sorted != [] ::
              exists c | c in chats :: c.updatedAt > ChatsEntry(s, sorted).summary.updatedAt
  {
    hide LiveTools.Before;
    var first, later := Thread(pinned, "", "Pinned", "", 1), Thread(other, "", "Later", "", 2);
    chats := [first, later];
    SortedChatsAreOrdered(s, chats);
    assert later in chats;
    forall sorted | ChatOrder(s, chats, sorted) && sorted != []
      ensures exists c | c in chats :: c.updatedAt > ChatsEntry(s, sorted).summary.updatedAt
    {
      FirstChatLeads(s, chats, sorted);
      assert first in chats && ThreadLess(s, first, later);
    }
  }

  // ---- Pins and names ----

  /** Thread `i` is the first one of its place: its workspace was made for it. */
  predicate IsFirst(s: Settings, registry: seq<Project>, threads: seq<Thread>, place: Place, i: nat)
    requires i < |threads|
  {
    && PlaceOf(s, registry, threads[i]) == place
    && forall j | 0 <= j < i :: PlaceOf(s, registry, threads[j]) != place
  }

  predicate HasPinned(s: Settings, registry: seq<Project>, threads: seq<Thread>, place: Place) {
    exists t | t in threads :: PlaceOf(s, registry, t) == place && ThreadPinned(s, t)
  }

  /**
   A workspace has the name its first thread gave it, and it is pinned exactly when one of its threads
   is, by itself or by its folder, or the project found by the first thread is pinned.
   */
  lemma {:induction false} PinnedAndNamed(s: Settings, registry: seq<Project>, threads: seq<Thread>, place: Place)
    returns (i: nat)
    requires Shown(s, registry, threads, place)
    ensures i < |threads| && IsFirst(s, registry, threads, place, i)
    ensures var w, first := SummaryOf(s, registry, threads, place), NewWorkspace(s, registry, threads[i]);
            && w.title == first.title
            && (w.pinned <==> HasPinned(s, registry, threads, place) || first.pinned)
  {
    hide PlaceOf, NewWorkspace, ThreadPinned;
    var before, t := threads[..|threads| - 1], threads[|threads| - 1];
    assert threads == before + [t];
    UpdatedAtBounds(s, registry, before, place);
    if Shown(s, registry, before, place) {
      i := PinnedAndNamed(s, registry, before, place);
    } else {
      i := |before|;
    }
  }

  // ---- Order ----

  /** Without chats, pinned entries come first. */
  lemma PinnedComeFirst(
    s: Settings, registry: seq<Project>, threads: seq<Thread>, entries: seq<Entry>, chats: seq<Thread>)
    requires IsCatalog(s, registry, threads, entries, chats) && chats == []
    ensures multiset(entries) == multiset(Listed(s, registry, threads))
    ensures forall i, j | 0 <= i < j < |entries| :: entries[j].summary.pinned ==> entries[i].summary.pinned
  {
    hide Listed, ChatOrder;
    var listed := Listed(s, registry, threads);
    PartitionedIsPermutation(listed, (e: Entry) => e.summary.pinned);
    PartitionedIsOrdered(listed, (e: Entry) => e.summary.pinned);
    assert entries == Partitioned(listed, (e: Entry) => e.summary.pinned);
  }

  predicate NoneNamedChats(s: Settings, registry: seq<Project>, threads: seq<Thread>) {
    forall e | e in Listed(s, registry, threads) :: !ChatsLike(e)
  }

  lemma ListedAreNotChats(s: Settings, registry: seq<Project>, threads: seq<Thread>)
    ensures forall e | e in PinnedFirst(Listed(s, registry, threads)) ::
              e in Listed(s, registry, threads) && e.place != Chats
    ensures forall e | e in Listed(s, registry, threads) :: e in PinnedFirst(Listed(s, registry, threads))
  {
    hide SummaryOf, Folders, Partitioned, Shown;
    var listed := Listed(s, registry, threads);
    PartitionedIsPermutation(listed, (e: Entry) => e.summary.pinned);
    forall e ensures e in PinnedFirst(listed) <==> e in listed {
      assert e in PinnedFirst(listed) <==> e in multiset(PinnedFirst(listed));
    }
  }

  lemma ChatsAreLikeChats(s: Settings, chats: seq<Thread>)
    requires chats != []
    ensures ChatsEntry(s, chats).place == Chats && ChatsLike(ChatsEntry(s, chats))
  {
  }

  lemma {:induction false} WhereAfter(first: Entry, rest: seq<Entry>, wanted: Entry -> bool)
    ensures Where([first] + rest, wanted) == Where([first], wanted) + Where(rest, wanted)
  {
    if rest == [] {
      assert [first] + rest == [first];
    } else {
      WhereAfter(first, rest[..|rest| - 1], wanted);
      assert ([first] + rest)[..|rest|] == [first] + rest[..|rest| - 1];
    }
  }

  /** An order that ends with another entry called "Chats" */
  lemma OtherOrder(listed: seq<Entry>, own: Entry, other: Entry) returns (entries: seq<Entry>)
    requires other in listed && ChatsLike(other)
    ensures ChatsLast(entries) && multiset(entries) == multiset(listed + [own])
    ensures entries != [] && entries[|entries| - 1] in listed
  {
    hide ChatsLike;
    entries := WithChatsLast([own] + listed);
    WithChatsLastIsOrdered([own] + listed);
    var wanted: Entry -> bool := e => !ChatsLike(e);
    var like: Entry -> bool := e => !wanted(e);
    WhereSelects(listed, like);
    assert other in multiset(Where(listed, like));
    WhereAfter(own, listed, like);
    var last := entries[|entries| - 1];
    assert entries == Where([own] + listed, wanted) + (Where([own], like) + Where(listed, like));
    assert last in multiset(Where(listed, like));
  }

  /**
   Every order the sort may choose ends with the chats exactly when no project or folder is called
   "Chats" too: the sort cannot tell such an entry from the chats.
   */
  lemma ChatsComeLastIff(s: Settings, registry: seq<Project>, threads: seq<Thread>, chats: seq<Thread>)
    requires ChatOrder(s, ChatsOf(s, registry, threads), chats) && chats != []
    ensures (forall entries: seq<Entry> | IsCatalog(s, registry, threads, entries, chats) ::
               entries != [] && entries[|entries| - 1].place == Chats)
            <==> NoneNamedChats(s, registry, threads)
  {
    hide Listed, ChatOrder, ChatsLike, ChatsOf, PinnedFirst, ChatsEntry;
    var listed, own := PinnedFirst(Listed(s, registry, threads)), ChatsEntry(s, chats);
    ListedAreNotChats(s, registry, threads);
    ChatsAreLikeChats(s, chats);
    if NoneNamedChats(s, registry, threads) {
      forall entries: seq<Entry> | IsCatalog(s, registry, threads, entries, chats)
        ensures entries != [] && entries[|entries| - 1].place == Chats
      {
        LastIsChats(entries, listed, own);
      }
    } else {
      var other :| other in Listed(s, registry, threads) && ChatsLike(other);
      var entries := OtherOrder(listed, own, other);
      assert IsCatalog(s, registry, threads, entries, chats);
    }
  }

  lemma LastIsChats(entries: seq<Entry>, listed: seq<Entry>, own: Entry)
    requires ChatsLast(entries) && multiset(entries) == multiset(listed + [own])
    requires ChatsLike(own) && forall e | e in listed :: !ChatsLike(e)
    ensures entries != [] && entries[|entries| - 1] == own
  {
    hide ChatsLike;
    assert own in multiset(listed + [own]);
    assert own in multiset(entries);
    var last := entries[|entries| - 1];
    assert ChatsLike(last);
    assert last in multiset(entries);
    assert last in multiset(listed + [own]);
  }

  // ---- Conservation ----

  /** The places of the catalog's entries */
  function Shelves(s: Settings, registry: seq<Project>, threads: seq<Thread>): seq<Place> {
    var folders := Folders(s, registry, threads);
    seq(|registry|, i requires 0 <= i < |registry| => InProject(registry[i].id))
    + seq(|folders|, i requires 0 <= i < |folders| => InFolder(folders[i]))
    + if ChatsOf(s, registry, threads) == [] then [] else [Chats]
  }

  function Total(entries: seq<Entry>): nat {
    if entries == [] then 0 else Total(entries[..|entries| - 1]) + entries[|entries| - 1].summary.count
  }

  /** The same sum, place by place and thread by thread */
  function ByShelf(shelves: seq<Place>, places: seq<Place>): nat {
    if shelves == [] then 0
    else ByShelf(shelves[..|shelves| - 1], places) + Count(places, shelves[|shelves| - 1])
  }

  function ByThread(shelves: seq<Place>, places: seq<Place>): nat {
    if places == [] then 0
    else ByThread(shelves, places[..|places| - 1]) + Count(shelves, places[|places| - 1])
  }

  function VisibleCount(places: seq<Place>): nat {
    if places == [] then 0
    else VisibleCount(places[..|places| - 1]) + if places[|places| - 1] == Hidden then 0 else 1
  }

  lemma {:induction false} OneMoreShelf(shelves: seq<Place>, shelf: Place, places: seq<Place>)
    ensures ByThread(shelves + [shelf], places) == ByThread(shelves, places) + Count(places, shelf)
  {
    if places == [] {
    } else {
      var before, last := places[..|places| - 1], places[|places| - 1];
      OneMoreShelf(shelves, shelf, before);
      assert places == before + [last];
    }
  }

  lemma {:induction false} BothSumsAgree(shelves: seq<Place>, places: seq<Place>)
    ensures ByShelf(shelves, places) == ByThread(shelves, places)
  {
    if shelves == [] {
      NoShelves(places);
    } else {
      var before, last := shelves[..|shelves| - 1], shelves[|shelves| - 1];
      BothSumsAgree(before, places);
      OneMoreShelf(before, last, places);
      assert shelves == before + [last];
    }
  }

  lemma {:induction false} NoShelves(places: seq<Place>)
    ensures ByThread([], places) == 0
  {
    if places == [] {
    } else {
      NoShelves(places[..|places| - 1]);
    }
  }

  predicate OnShelves(shelves: seq<Place>, places: seq<Place>) {
    forall p | p in places :: if p == Hidden then Count(shelves, p) == 0 else Count(shelves, p) >= 1
  }

  predicate OnceEach(shelves: seq<Place>, places: seq<Place>) {
    forall p | p in places :: p != Hidden ==> Count(shelves, p) == 1
  }

  lemma {:induction false} VisibleIffOnce(shelves: seq<Place>, places: seq<Place>)
    requires OnShelves(shelves, places)
    ensures ByThread(shelves, places) >= VisibleCount(places)
    ensures ByThread(shelves, places) == VisibleCount(places) <==> OnceEach(shelves, places)
  {
    hide Count;
    if places == [] {
    } else {
      var before, last := places[..|places| - 1], places[|places| - 1];
      assert places == before + [last];
      VisibleIffOnce(shelves, before);
      assert last in places;
    }
  }

  // ---- The places of a catalog ----

  function Ids(registry: seq<Project>): seq<string> {
    seq(|registry|, i requires 0 <= i < |registry| => registry[i].id)
  }

  function Projects(ids: seq<string>): seq<Place> {
    seq(|ids|, i requires 0 <= i < |ids| => InProject(ids[i]))
  }

  function FolderPlaces(keys: seq<string>): seq<Place> {
    seq(|keys|, i requires 0 <= i < |keys| => InFolder(keys[i]))
  }

  lemma {:induction false} ProjectPlaces(ids: seq<string>, place: Place)
    ensures Count(Projects(ids), place) == if place.InProject? then multiset(ids)[place.id] else 0
  {
    if ids == [] {
    } else {
      var front, last := ids[..|ids| - 1], ids[|ids| - 1];
      ProjectPlaces(front, place);
      assert ids == front + [last] && Projects(ids) == Projects(front) + [InProject(last)];
    }
  }

  lemma {:induction false} FolderPlacesCount(keys: seq<string>, place: Place)
    ensures Count(FolderPlaces(keys), place) == if place.InFolder? then multiset(keys)[place.key] else 0
  {
    if keys == [] {
    } else {
      var front, last := keys[..|keys| - 1], keys[|keys| - 1];
      FolderPlacesCount(front, place);
      assert keys == front + [last] && FolderPlaces(keys) == FolderPlaces(front) + [InFolder(last)];
    }
  }

  lemma {:induction false} FoldersAreDistinct(s: Settings, registry: seq<Project>, threads: seq<Thread>, key: string)
    ensures multiset(Folders(s, registry, threads))[key] <= 1
  {
    hide PlaceOf;
    if threads == [] {
    } else {
      FoldersAreDistinct(s, registry, threads[..|threads| - 1], key);
    }
  }

  function ChatPlace(s: Settings, registry: seq<Project>, threads: seq<Thread>): seq<Place> {
    if ChatsOf(s, registry, threads) == [] then [] else [Chats]
  }

  /** How often each place has an entry */
  lemma ShelfCounts(s: Settings, registry: seq<Project>, threads: seq<Thread>, place: Place)
    ensures Count(Shelves(s, registry, threads), place)
            == match place
               case Hidden => 0
               case Chats => if ChatsOf(s, registry, threads) == [] then 0 else 1
               case InProject(id) => multiset(Ids(registry))[id]
               case InFolder(key) => if key in Folders(s, registry, threads) then 1 else 0
  {
    hide Folders, ChatsOf;
    var folders := Folders(s, registry, threads);
    assert Shelves(s, registry, threads)
        == Projects(Ids(registry)) + FolderPlaces(folders) + ChatPlace(s, registry, threads);
    ProjectPlaces(Ids(registry), place);
    FolderPlacesCount(folders, place);
    if place.InFolder? {
      FoldersAreDistinct(s, registry, threads, place.key);
    }
  }

  lemma PlaceOccurs(s: Settings, registry: seq<Project>, threads: seq<Thread>, i: nat)
    requires i < |threads|
    ensures Count(Places(s, registry, threads), PlaceOf(s, registry, threads[i])) > 0
  {
    hide PlaceOf;
    assert Places(s, registry, threads)[i] in Places(s, registry, threads);
  }

  lemma MatchedIdIsRegistered(s: Settings, registry: seq<Project>, t: Thread)
    requires PlaceOf(s, registry, t).InProject?
    ensures PlaceOf(s, registry, t).id in Ids(registry)
  {
    hide Match;
    var m := Match(s.normalize, registry, t.cwd);
    assert Ids(registry)[m.value] == registry[m.value].id;
  }

  lemma PlacesAreOnShelves(s: Settings, registry: seq<Project>, threads: seq<Thread>)
    ensures OnShelves(Shelves(s, registry, threads), Places(s, registry, threads))
  {
    hide PlaceOf, Shelves, Folders, ChatsOf, SummaryOf;
    var shelves, places := Shelves(s, registry, threads), Places(s, registry, threads);
    forall p | p in places ensures if p == Hidden then Count(shelves, p) == 0 else Count(shelves, p) >= 1 {
      var i :| 0 <= i < |threads| && PlaceOf(s, registry, threads[i]) == p;
      ShelfCounts(s, registry, threads, p);
      PlaceOccurs(s, registry, threads, i);
      if p.InProject? {
        MatchedIdIsRegistered(s, registry, threads[i]);
      } else if p.InFolder? {
        FolderIffShown(s, registry, threads, p.key);
        CountIsNumber(s, registry, threads, p);
      } else if p.Chats? {
        ChatsAreCounted(s, registry, threads);
      }
    }
  }

  // ---- The entries of a catalog ----

  lemma {:induction false} TotalAt(entries: seq<Entry>, i: nat)
    requires i < |entries|
    ensures Total(entries) == Total(Without(entries, i)) + entries[i].summary.count
  {
    var front, last := entries[..|entries| - 1], entries[|entries| - 1];
    if i == |front| {
      assert entries[..i] + entries[i + 1..] == front;
    } else {
      TotalAt(front, i);
      assert entries[..i] + entries[i + 1..] == (front[..i] + front[i + 1..]) + [last];
      assert ((front[..i] + front[i + 1..]) + [last])[..|entries| - 2] == front[..i] + front[i + 1..];
    }
  }

  function Without(entries: seq<Entry>, i: nat): seq<Entry>
    requires i < |entries|
  {
    entries[..i] + entries[i + 1..]
  }

  lemma WithoutRemoves(entries: seq<Entry>, i: nat)
    requires i < |entries|
    ensures multiset(Without(entries, i)) == multiset(entries) - multiset{entries[i]}
  {
    assert entries == entries[..i] + [entries[i]] + entries[i + 1..];
  }

  /** The order of the entries does not matter for the sum. */
  lemma {:induction false} TotalIgnoresOrder(a: seq<Entry>, b: seq<Entry>)
    requires multiset(a) == multiset(b)
    ensures Total(a) == Total(b)
    decreases |a|
  {
    hide Total, Without;
    assert |multiset(a)| == |multiset(b)|;
    if a == [] {
    } else {
      assert a[0] in multiset(b);
      var i :| 0 <= i < |b| && b[i] == a[0];
      WithoutRemoves(a, 0);
      WithoutRemoves(b, i);
      OneLess(a);
      TotalIgnoresOrder(Without(a, 0), Without(b, i));
      TotalAt(a, 0);
      TotalAt(b, i);
    }
  }

  lemma OneLess(entries: seq<Entry>)
    requires entries != []
    ensures |Without(entries, 0)| == |entries| - 1
  {
  }

  /** All entries before the sorts */
  function Unsorted(s: Settings, registry: seq<Project>, threads: seq<Thread>, chats: seq<Thread>): seq<Entry> {
    Listed(s, registry, threads) + if chats == [] then [] else [ChatsEntry(s, chats)]
  }

  lemma CatalogIsPermutation(
    s: Settings, registry: seq<Project>, threads: seq<Thread>, entries: seq<Entry>, chats: seq<Thread>)
    requires IsCatalog(s, registry, threads, entries, chats)
    ensures multiset(entries) == multiset(Unsorted(s, registry, threads, chats))
  {
    hide Listed, ChatOrder, ChatsLast, ChatsEntry;
    PartitionedIsPermutation(Listed(s, registry, threads), (e: Entry) => e.summary.pinned);
    assert multiset(PinnedFirst(Listed(s, registry, threads))) == multiset(Listed(s, registry, threads));
  }

  lemma ChatsAreAllSorted(s: Settings, chats: seq<Thread>, sorted: seq<Thread>)
    requires ChatOrder(s, chats, sorted)
    ensures |sorted| == |chats|
  {
    assert |multiset(sorted)| == |multiset(chats)|;
  }

  lemma EntriesHaveTheirCounts(s: Settings, registry: seq<Project>, threads: seq<Thread>, chats: seq<Thread>)
    requires ChatOrder(s, ChatsOf(s, registry, threads), chats)
    ensures var entries := Unsorted(s, registry, threads, chats);
            && |entries| == |Shelves(s, registry, threads)|
            && forall i | 0 <= i < |entries| ::
                 entries[i].summary.count == Count(Places(s, registry, threads), Shelves(s, registry, threads)[i])
  {
    hide PlaceOf, Folders, ChatsOf, SummaryOf, Places, Count, ChatOrder;
    ChatsAreCounted(s, registry, threads);
    ChatsAreAllSorted(s, ChatsOf(s, registry, threads), chats);
    forall i | 0 <= i < |Listed(s, registry, threads)|
      ensures Listed(s, registry, threads)[i].summary.count
              == Count(Places(s, registry, threads), Shelves(s, registry, threads)[i])
    {
      CountIsNumber(s, registry, threads, Shelves(s, registry, threads)[i]);
    }
  }

  lemma {:induction false} TotalIsByShelf(entries: seq<Entry>, shelves: seq<Place>, places: seq<Place>)
    requires |entries| == |shelves|
    requires forall i | 0 <= i < |entries| :: entries[i].summary.count == Count(places, shelves[i])
    ensures Total(entries) == ByShelf(shelves, places)
  {
    hide Count;
    if entries == [] {
    } else {
      TotalIsByShelf(entries[..|entries| - 1], shelves[..|shelves| - 1], places);
    }
  }

  /** The registered project of each visible project thread has an id of its own. */
  predicate MatchedIdsAreUnique(s: Settings, registry: seq<Project>, threads: seq<Thread>) {
    forall t | t in threads ::
      PlaceOf(s, registry, t).InProject? ==> multiset(Ids(registry))[PlaceOf(s, registry, t).id] == 1
  }

  /**
   The counts of all entries add up to the number of visible threads exactly when no thread belongs
   to a project whose id is registered twice; otherwise threads are counted more than once.
   */
  lemma CountsAddUpIff(
    s: Settings, registry: seq<Project>, threads: seq<Thread>, entries: seq<Entry>, chats: seq<Thread>)
    requires IsCatalog(s, registry, threads, entries, chats)
    ensures Total(entries) >= VisibleCount(Places(s, registry, threads))
    ensures Total(entries) == VisibleCount(Places(s, registry, threads)) <==> MatchedIdsAreUnique(s, registry, threads)
  {
    hide PlaceOf, Shelves, ChatOrder, Listed, Unsorted, Count, Places, Total, ByShelf, ByThread, VisibleCount;
    var shelves, places := Shelves(s, registry, threads), Places(s, registry, threads);
    var unsorted := Unsorted(s, registry, threads, chats);
    CatalogIsPermutation(s, registry, threads, entries, chats);
    TotalIgnoresOrder(entries, unsorted);
    EntriesHaveTheirCounts(s, registry, threads, chats);
    TotalIsByShelf(unsorted, shelves, places);
    BothSumsAgree(shelves, places);
    PlacesAreOnShelves(s, registry, threads);
    VisibleIffOnce(shelves, places);
    OnceIffUnique(s, registry, threads);
  }

  lemma OnceIffUnique(s: Settings, registry: seq<Project>, threads: seq<Thread>)
    ensures OnceEach(Shelves(s, registry, threads), Places(s, registry, threads))
        <==> MatchedIdsAreUnique(s, registry, threads)
  {
    hide PlaceOf, Shelves, Count, Folders, ChatsOf;
    var shelves, places := Shelves(s, registry, threads), Places(s, registry, threads);
    PlacesAreOnShelves(s, registry, threads);
    forall p | p in places
      ensures p != Hidden ==> (Count(shelves, p) == 1 <==> p.InProject? ==> multiset(Ids(registry))[p.id] == 1)
    {
      ShelfCounts(s, registry, threads, p);
    }
    forall t | t in threads ensures PlaceOf(s, registry, t) in places {
      var i :| 0 <= i < |threads| && threads[i] == t;
      assert places[i] == PlaceOf(s, registry, t);
    }
    forall p | p in places ensures exists t | t in threads :: PlaceOf(s, registry, t) == p {
      var i :| 0 <= i < |places| && places[i] == p;
      assert threads[i] in threads && PlaceOf(s, registry, threads[i]) == p;
    }
  }

  /** With distinct project ids, as the registry has them, every visible thread is counted once. */
  lemma DistinctIdsAddUp(
    s: Settings, registry: seq<Project>, threads: seq<Thread>, entries: seq<Entry>, chats: seq<Thread>)
    requires IsCatalog(s, registry, threads, entries, chats)
    requires forall i, j | 0 <= i < j < |registry| :: registry[i].id != registry[j].id
    ensures Total(entries) == VisibleCount(Places(s, registry, threads))
  {
    hide PlaceOf, IsCatalog, Places, Total, VisibleCount;
    forall t | t in threads && PlaceOf(s, registry, t).InProject?
      ensures multiset(Ids(registry))[PlaceOf(s, registry, t).id] == 1
    {
      MatchedIdIsRegistered(s, registry, t);
      DistinctCount(Ids(registry), PlaceOf(s, registry, t).id);
    }
    CountsAddUpIff(s, registry, threads, entries, chats);
  }

  lemma {:induction false} DistinctCount(ids: seq<string>, id: string)
    requires forall i, j | 0 <= i < j < |ids| :: ids[i] != ids[j]
    ensures multiset(ids)[id] == if id in ids then 1 else 0
  {
    if ids == [] {
    } else {
      var front, last := ids[..|ids| - 1], ids[|ids| - 1];
      DistinctCount(front, id);
      assert ids == front + [last];
    }
  }
}
