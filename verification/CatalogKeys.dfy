/**
 The keys of the catalog's entries (assignProjectWorkspaceKeys, internal/daemon/projects.go): a name
 in lower case letters, digits and dashes, with a number when an earlier entry has that name.
 */
module CatalogKeys {
  import opened Text
  import opened Catalog
  import opened CatalogCounts
  import opened Markers

  // ---- Names ----

  predicate KeepsInKey(c: char) {
    'a' <= c <= 'z' || '0' <= c <= '9'
  }

  /** Every run of other characters becomes one dash. */
  function Dashed(name: string): string {
    if name == "" then ""
    else
      var before, c := Dashed(name[..|name| - 1]), name[|name| - 1];
      if KeepsInKey(c) then before + [c]
      else if before != "" && before[|before| - 1] == '-' then before
      else before + "-"
  }

  function TrimDashesLeft(s: string): string {
    if s != "" && s[0] == '-' then TrimDashesLeft(s[1..]) else s
  }

  function TrimDashesRight(s: string): string {
    if s != "" && s[|s| - 1] == '-' then TrimDashesRight(s[..|s| - 1]) else s
  }

  function NameOf(title: Title): string {
    ToLower(FirstNonBlank([title.name, title.directory, title.cwd, "project"]))
  }

  function KeyBase(title: Title): string {
    var key := TrimDashesRight(TrimDashesLeft(Dashed(NameOf(title))));
    if key == "" then "project" else key
  }

  /** projectWorkspaceKeyBase */
  method ProjectWorkspaceKeyBase(title: Title) returns (key: string)
    ensures key == KeyBase(title)
  {
    hide ToLower, FirstNonBlank, KeepsInKey, TrimDashesLeft, TrimDashesRight;
    var source := NameOf(title);
    var builder, lastDash := "", false;
    for i := 0 to |source|
      invariant builder == Dashed(source[..i])
      invariant lastDash <==> builder != "" && builder[|builder| - 1] == '-'
    {
      assert source[..i + 1][..i] == source[..i];
      if KeepsInKey(source[i]) {
        KeptIsNoDash(source[i]);
        builder, lastDash := builder + [source[i]], false;
      } else if !lastDash {
        builder, lastDash := builder + "-", true;
      }
    }
    assert source[..|source|] == source;
    key := TrimDashesRight(TrimDashesLeft(builder));
    if key == "" {
      key := "project";
    }
  }

  lemma KeptIsNoDash(c: char)
    ensures KeepsInKey(c) ==> c != '-'
  {
  }

  // ---- Numbers ----

  /** What an entry asks for: the chats have a key of their own, the others one after their name. */
  datatype Wish = Wish(fixed: bool, slot: string)

  function WishOf(e: Entry): Wish {
    if e.place == Chats then Wish(true, "chats") else Wish(false, KeyBase(e.summary.title))
  }

  function Wishes(entries: seq<Entry>): seq<Wish> {
    seq(|entries|, i requires 0 <= i < |entries| => WishOf(entries[i]))
  }

  /** How many of the first `n` entries ask for `slot` */
  function Asked(wishes: seq<Wish>, n: nat, slot: string): nat
    requires n <= |wishes|
  {
    if n == 0 then 0 else Asked(wishes, n - 1, slot) + if wishes[n - 1].slot == slot then 1 else 0
  }

  /** Entry `i` is the how-manieth that asks for its slot. */
  function Rank(wishes: seq<Wish>, i: nat): nat
    requires i < |wishes|
  {
    Asked(wishes, i + 1, wishes[i].slot)
  }

  function NumberedKey(slot: string, n: nat): string {
    slot + "-" + Decimal(n)
  }

  function KeyAt(wishes: seq<Wish>, i: nat): string
    requires i < |wishes|
  {
    if wishes[i].fixed || Rank(wishes, i) == 1 then wishes[i].slot
    else NumberedKey(wishes[i].slot, Rank(wishes, i))
  }

  function Keys(entries: seq<Entry>): seq<string> {
    var wishes := Wishes(entries);
    seq(|wishes|, i requires 0 <= i < |wishes| => KeyAt(wishes, i))
  }

  method AssignProjectWorkspaceKeys(entries: seq<Entry>) returns (keys: seq<string>)
    ensures keys == Keys(entries)
  {
    hide KeyBase, Decimal;
    ghost var wishes := Wishes(entries);
    var seen: map<string, nat> := map[];
    keys := [];
    for i := 0 to |entries|
      invariant |keys| == i
      invariant forall slot :: (if slot in seen then seen[slot] else 0) == Asked(wishes, i, slot)
      invariant forall j | 0 <= j < i :: keys[j] == KeyAt(wishes, j)
    {
      var slot := "chats";
      if entries[i].place != Chats {
        slot := ProjectWorkspaceKeyBase(entries[i].summary.title);
      }
      assert wishes[i].slot == slot;
      var count := 1 + if slot in seen then seen[slot] else 0;
      seen := seen[slot := count];
      if entries[i].place == Chats || count == 1 {
        keys := keys + [slot];
      } else {
        keys := keys + [NumberedKey(slot, count)];
      }
    }
  }

  // ---- When keys are distinct ----

  lemma {:induction false} AskedGrows(wishes: seq<Wish>, m: nat, n: nat, slot: string)
    requires m <= n <= |wishes|
    ensures Asked(wishes, m, slot) <= Asked(wishes, n, slot)
  {
    if m == n {
    } else {
      AskedGrows(wishes, m, n - 1, slot);
    }
  }

  lemma LaterRankIsHigher(wishes: seq<Wish>, i: nat, j: nat)
    requires i < j < |wishes| && wishes[i].slot == wishes[j].slot
    ensures 1 <= Rank(wishes, i) < Rank(wishes, j)
  {
    AskedGrows(wishes, i + 1, j, wishes[i].slot);
  }

  /** Every slot that is asked for has a first entry, which gets it as its key. */
  lemma {:induction false} FirstGetsSlot(wishes: seq<Wish>, n: nat, slot: string) returns (i: nat)
    requires n <= |wishes| && Asked(wishes, n, slot) > 0
    ensures i < n && wishes[i].slot == slot && Rank(wishes, i) == 1 && KeyAt(wishes, i) == slot
  {
    if Asked(wishes, n - 1, slot) > 0 {
      i := FirstGetsSlot(wishes, n - 1, slot);
    } else {
      i := n - 1;
    }
  }

  lemma RankIsPositive(wishes: seq<Wish>, i: nat)
    requires i < |wishes|
    ensures Rank(wishes, i) >= 1
  {
  }

  lemma {:induction false} DecimalIsDigits(n: nat)
    ensures forall c | c in Decimal(n) :: '0' <= c <= '9'
  {
    if n < 10 {
    } else {
      DecimalIsDigits(n / 10);
    }
  }

  lemma DashAt(slot: string, n: nat)
    ensures var key, d := NumberedKey(slot, n), Decimal(n);
            && |key| == |slot| + 1 + |d| && key[|slot|] == '-' && key[..|slot|] == slot && key[|slot| + 1..] == d
            && forall k | |slot| < k < |key| :: '0' <= key[k] <= '9'
  {
    hide Decimal;
    var key, d := NumberedKey(slot, n), Decimal(n);
    DecimalIsDigits(n);
    forall k | |slot| < k < |key| ensures '0' <= key[k] <= '9' {
      assert key[k] == d[k - |slot| - 1] && d[k - |slot| - 1] in d;
    }
  }

  /** The last dash of a numbered key stands in front of its number. */
  lemma NumberedKeysDiffer(a: string, m: nat, b: string, n: nat)
    requires NumberedKey(a, m) == NumberedKey(b, n)
    ensures a == b && m == n
  {
    hide NumberedKey, Decimal;
    DashAt(a, m);
    DashAt(b, n);
    var key := NumberedKey(a, m);
    assert |a| == |b|;
    DecimalIsInjective(m, n);
  }

  /** Nobody before a fixed key asks for it. */
  predicate FixedComeFirst(wishes: seq<Wish>) {
    forall i | 0 <= i < |wishes| :: wishes[i].fixed ==> Rank(wishes, i) == 1
  }

  /** No entry asks for a name that another one, asked for too often, is given with its number. */
  predicate NumbersAreFree(wishes: seq<Wish>) {
    forall i, j | 0 <= i < |wishes| && 0 <= j < |wishes| ::
      Rank(wishes, j) >= 2 ==> wishes[i].slot != NumberedKey(wishes[j].slot, Rank(wishes, j))
  }

  predicate KeysAreDistinct(wishes: seq<Wish>) {
    forall i, j | 0 <= i < j < |wishes| :: KeyAt(wishes, i) != KeyAt(wishes, j)
  }

  lemma SameKey(wishes: seq<Wish>, i: nat, j: nat)
    requires i < j < |wishes| && FixedComeFirst(wishes) && NumbersAreFree(wishes)
    ensures KeyAt(wishes, i) != KeyAt(wishes, j)
  {
    hide NumberedKey, Rank;
    var (a, b) := (wishes[i].slot, wishes[j].slot);
    if KeyAt(wishes, i) == KeyAt(wishes, j) {
      RankIsPositive(wishes, i);
      RankIsPositive(wishes, j);
      if Rank(wishes, i) >= 2 && Rank(wishes, j) >= 2 {
        NumberedKeysDiffer(a, Rank(wishes, i), b, Rank(wishes, j));
      }
      assert a == b;
      LaterRankIsHigher(wishes, i, j);
      assert false;
    }
  }

  lemma Clash(wishes: seq<Wish>, i: nat, j: nat)
    requires i < |wishes| && j < |wishes| && i != j && KeyAt(wishes, i) == KeyAt(wishes, j)
    ensures !KeysAreDistinct(wishes)
  {
    if j < i {
      assert KeyAt(wishes, j) == KeyAt(wishes, i);
    }
  }

  /**
   The keys of all entries are distinct exactly when nobody asks for the key of the chats before them,
   and no name is the numbered form of another that comes so often: "a", "a" and "a-2" clash.
   */
  lemma KeysAreDistinctIff(wishes: seq<Wish>)
    ensures KeysAreDistinct(wishes) <==> FixedComeFirst(wishes) && NumbersAreFree(wishes)
  {
    hide Rank, NumberedKey, Asked;
    if !FixedComeFirst(wishes) {
      var i :| 0 <= i < |wishes| && wishes[i].fixed && Rank(wishes, i) != 1;
      SlotIsAsked(wishes, i);
      var first := FirstGetsSlot(wishes, |wishes|, wishes[i].slot);
      Clash(wishes, i, first);
    } else if !NumbersAreFree(wishes) {
      var i, j :| && 0 <= i < |wishes| && 0 <= j < |wishes| && Rank(wishes, j) >= 2
                  && wishes[i].slot == NumberedKey(wishes[j].slot, Rank(wishes, j));
      SlotIsAsked(wishes, i);
      var first := FirstGetsSlot(wishes, |wishes|, wishes[i].slot);
      Clash(wishes, j, first);
    } else {
      forall i, j | 0 <= i < j < |wishes| ensures KeyAt(wishes, i) != KeyAt(wishes, j) {
        SameKey(wishes, i, j);
      }
    }
  }

  lemma SlotIsAsked(wishes: seq<Wish>, i: nat)
    requires i < |wishes|
    ensures Asked(wishes, |wishes|, wishes[i].slot) > 0
  {
    AskedGrows(wishes, i + 1, |wishes|, wishes[i].slot);
  }

  // ---- The button of the chats ----

  /** projectWorkspaceFromCallback for the chats: the first entry with their key */
  predicate ChatsFoundAt(wishes: seq<Wish>, i: nat)
    requires i < |wishes|
  {
    TrimSpace(KeyAt(wishes, i)) == "chats" && forall j | 0 <= j < i :: TrimSpace(KeyAt(wishes, j)) != "chats"
  }

  predicate MadeForKeys(s: string) {
    forall c | c in s :: KeepsInKey(c) || c == '-'
  }

  lemma {:induction false} DashedIsMade(name: string)
    ensures MadeForKeys(Dashed(name))
  {
    if name == "" {
    } else {
      DashedIsMade(name[..|name| - 1]);
    }
  }

  lemma {:induction false} TrimmedLeftIsMade(s: string)
    requires MadeForKeys(s)
    ensures MadeForKeys(TrimDashesLeft(s))
  {
    if s != "" && s[0] == '-' {
      TrimmedLeftIsMade(s[1..]);
    }
  }

  lemma {:induction false} TrimmedRightIsMade(s: string)
    requires MadeForKeys(s)
    ensures MadeForKeys(TrimDashesRight(s))
  {
    if s != "" && s[|s| - 1] == '-' {
      TrimmedRightIsMade(s[..|s| - 1]);
    }
  }

  /** A name for a key is never empty and has no white space. */
  lemma KeyBaseIsTidy(title: Title)
    ensures KeyBase(title) != "" && MadeForKeys(KeyBase(title)) && TrimSpace(KeyBase(title)) == KeyBase(title)
  {
    hide TrimSpace, Dashed, NameOf, TrimDashesLeft, TrimDashesRight;
    var dashed := Dashed(NameOf(title));
    DashedIsMade(NameOf(title));
    TrimmedLeftIsMade(dashed);
    TrimmedRightIsMade(TrimDashesLeft(dashed));
    var key := KeyBase(title);
    assert key[0] in key && key[|key| - 1] in key;
    AlreadyTrimmed(key);
  }

  lemma NumberedIsNotChats(slot: string, n: nat)
    requires TrimSpace(slot) == slot
    ensures TrimSpace(NumberedKey(slot, n)) != "chats"
  {
    hide TrimSpace, Decimal;
    DashAt(slot, n);
    EndIsKept(NumberedKey(slot, n));
  }

  lemma EndIsKept(s: string)
    requires s != "" && !IsSpace(s[|s| - 1])
    ensures TrimSpace(s) != "" && TrimSpace(s)[|TrimSpace(s)| - 1] == s[|s| - 1]
  {
    LeftKeepsEnd(s);
  }

  lemma {:induction false} LeftKeepsEnd(s: string)
    requires s != "" && !IsSpace(s[|s| - 1])
    ensures TrimLeft(s) != "" && TrimLeft(s)[|TrimLeft(s)| - 1] == s[|s| - 1]
  {
    if IsSpace(s[0]) {
      LeftKeepsEnd(s[1..]);
    }
  }

  /** The button of the chats opens them exactly when no entry before them is given their key by its name. */
  lemma ChatsAreFoundIff(entries: seq<Entry>, c: nat)
    requires c < |entries| && entries[c].place == Chats
    requires forall j | 0 <= j < c :: entries[j].place != Chats
    ensures ChatsFoundAt(Wishes(entries), c) <==> forall j | 0 <= j < c :: KeyBase(entries[j].summary.title) != "chats"
  {
    hide TrimSpace, Rank, NumberedKey, KeyBase;
    var wishes := Wishes(entries);
    AlreadyTrimmed("chats");
    assert KeyAt(wishes, c) == "chats";
    assert forall j | 0 <= j < c :: wishes[j] == Wish(false, KeyBase(entries[j].summary.title));
    if j :| 0 <= j < c && wishes[j].slot == "chats" {
      BeforeIsAsked(wishes, j, c);
      var first := FirstGetsSlot(wishes, c, "chats");
    } else {
      forall j | 0 <= j < c ensures TrimSpace(KeyAt(wishes, j)) != "chats" {
        KeyBaseIsTidy(entries[j].summary.title);
        NumberedIsNotChats(wishes[j].slot, Rank(wishes, j));
      }
    }
  }

  /** In every catalog with a project whose name only nearly is that of the chats, the button misses them. */
  lemma NearlyChatsHideChats(
    s: Settings, registry: seq<Project>, threads: seq<Thread>, entries: seq<Entry>, chats: seq<Thread>,
    c: nat, near: nat)
    requires IsCatalog(s, registry, threads, entries, chats) && chats != []
    requires c < |entries| && entries[c].place == Chats && forall j | 0 <= j < c :: entries[j].place != Chats
    requires near < |entries| && !ChatsLike(entries[near]) && KeyBase(entries[near].summary.title) == "chats"
    ensures !ChatsFoundAt(Wishes(entries), c)
  {
    hide ChatOrder, KeyBase, Listed, PinnedFirst, ChatsEntry, ChatsFoundAt;
    assert near < c;
    ChatsAreFoundIff(entries, c);
  }

  /** Such a name */
  lemma NearlyChats() returns (title: Title)
    ensures KeyBase(title) == "chats"
    ensures forall e: Entry | e.place != Chats && e.summary.title == title :: !ChatsLike(e)
  {
    hide TrimSpace;
    title := Title("Chats!", "", "", []);
    AlreadyTrimmed("Chats!");
    assert ToLower("Chats!") == "chats!";
    assert |ToLower("Chats")| == 5;
    hide ToLower, Dashed;
    assert NameOf(title) == "chats!";
    DashedChats();
    assert TrimDashesLeft("chats-") == "chats-";
  }

  lemma DashedChats()
    ensures Dashed("chats!") == "chats-" && TrimDashesRight("chats-") == "chats"
  {
    hide Dashed;
    var name := "chats";
    KeptName(name);
    DashedPlus(name, '!');
    assert name + ['!'] == "chats!" && name + "-" == "chats-";
    assert (name + "-")[..|name|] == name;
  }

  lemma {:induction false} KeptName(name: string)
    requires forall c | c in name :: KeepsInKey(c)
    ensures Dashed(name) == name
  {
    if name == "" {
    } else {
      KeptName(name[..|name| - 1]);
    }
  }

  lemma DashedPlus(name: string, c: char)
    ensures Dashed(name + [c])
            == if KeepsInKey(c) then Dashed(name) + [c]
               else if Dashed(name) != "" && Dashed(name)[|Dashed(name)| - 1] == '-' then Dashed(name)
               else Dashed(name) + "-"
  {
    assert (name + [c])[..|name|] == name;
  }

  lemma BeforeIsAsked(wishes: seq<Wish>, j: nat, c: nat)
    requires j < c <= |wishes|
    ensures Asked(wishes, c, wishes[j].slot) > 0
  {
    AskedGrows(wishes, j + 1, c, wishes[j].slot);
  }

  // ---- The whole catalog ----

  method RegistryProjectCatalog(s: Settings, threads: seq<Thread>, registry: seq<Project>)
    returns (entries: seq<Entry>, keys: seq<string>, chats: seq<Thread>)
    ensures IsCatalog(s, registry, threads, entries, chats)
    ensures keys == Keys(entries)
  {
    entries, chats := BuildCatalog(s, threads, registry);
    keys := AssignProjectWorkspaceKeys(entries);
  }
}
