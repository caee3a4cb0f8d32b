/** The keys of the catalog's entries (internal/daemon/projects.go) as words joined by dashes. */
module KeyRules {
  import opened Text
  import opened Catalog
  import opened CatalogCounts
  import opened CatalogKeys

  /** A small letter or a digit */
  predicate InWord(c: char) {
    ('a' as int <= c as int <= 'a' as int + 25) || ('0' as int <= c as int <= '0' as int + 9)
  }

  /** The longest runs of such characters in a name */
  function Words(name: string): (words: seq<string>)
    ensures name != "" && InWord(name[|name| - 1]) ==> words != []
  {
    if name == "" then []
    else
      var front, c := name[..|name| - 1], name[|name| - 1];
      var before := Words(front);
      if !InWord(c) then before
      else if front != "" && InWord(front[|front| - 1]) then before[..|before| - 1] + [before[|before| - 1] + [c]]
      else before + [[c]]
  }

  /** The words with dashes between them */
  function Dashes(words: seq<string>): string {
    if words == [] then ""
    else if |words| == 1 then words[0]
    else Dashes(words[..|words| - 1]) + "-" + words[|words| - 1]
  }

  /** A name of words with one more character at the end of the last one */
  lemma LongerWord(front: seq<string>, last: string, c: char)
    ensures Dashes(front + [last + [c]]) == Dashes(front + [last]) + [c]
  {
    hide Dashes;
    MoreWords(front, last);
    MoreWords(front, last + [c]);
    var joined := Dashes(front) + "-";
    assert joined + (last + [c]) == joined + last + [c];
  }

  lemma MoreWords(words: seq<string>, word: string)
    ensures Dashes(words + [word]) == if words == [] then word else Dashes(words) + "-" + word
  {
    assert (words + [word])[..|words|] == words;
  }

  /** A joined name begins and ends with characters of words. */
  predicate EndsInWords(s: string) {
    s != "" && InWord(s[0]) && InWord(s[|s| - 1])
  }

  /** The words with a dash in front and behind where other characters stand there */
  predicate Shape(name: string, joined: string, dashed: string) {
    if name == "" then joined == "" && dashed == ""
    else if joined == "" then dashed == "-" && !InWord(name[0]) && !InWord(name[|name| - 1])
    else
      && EndsInWords(joined)
      && dashed == (if InWord(name[0]) then joined else "-" + joined) + (if InWord(name[|name| - 1]) then "" else "-")
  }

  lemma OtherCharacter(front: string, c: char, joined: string, dashed: string)
    requires Shape(front, joined, dashed) && !InWord(c)
    ensures Shape(front + [c], joined,
                  if dashed != "" && dashed[|dashed| - 1] == '-' then dashed else dashed + "-")
  {
  }

  lemma OneMoreCharacter(front: string, c: char, joined: string, dashed: string)
    requires Shape(front, joined, dashed) && InWord(c) && front != "" && InWord(front[|front| - 1])
    ensures Shape(front + [c], joined + [c], dashed + [c])
  {
  }

  lemma FirstCharacter(front: string, c: char, joined: string, dashed: string)
    requires Shape(front, joined, dashed) && InWord(c) && (front == "" || !InWord(front[|front| - 1]))
    ensures Shape(front + [c], if joined == "" then [c] else joined + "-" + [c], dashed + [c])
  {
  }

  lemma DashedStep(name: string)
    requires name != ""
    ensures var before, c := Dashed(name[..|name| - 1]), name[|name| - 1];
            Dashed(name) == if InWord(c) then before + [c]
                            else if before != "" && before[|before| - 1] == '-' then before else before + "-"
  {
  }

  lemma JoinedStep(name: string)
    requires name != ""
    ensures var front, c := name[..|name| - 1], name[|name| - 1];
            var joined := Dashes(Words(front));
            Dashes(Words(name)) == if !InWord(c) then joined
                                   else if front != "" && InWord(front[|front| - 1]) then joined + [c]
                                   else if Words(front) == [] then [c] else joined + "-" + [c]
  {
    hide Dashes;
    var front, c := name[..|name| - 1], name[|name| - 1];
    if InWord(c) && front != "" && InWord(front[|front| - 1]) {
      var words := Words(front);
      LongerWord(words[..|words| - 1], words[|words| - 1], c);
      assert words == words[..|words| - 1] + [words[|words| - 1]];
    } else {
      MoreWords(Words(front), [c]);
    }
  }

  lemma {:induction false} DashedIsWords(name: string)
    ensures Shape(name, Dashes(Words(name)), Dashed(name))
    ensures Words(name) == [] <==> Dashes(Words(name)) == ""
  {
    hide Dashes, Words, Dashed, InWord, Shape;
    if name == "" {
      NoName();
    } else {
      var front, c := name[..|name| - 1], name[|name| - 1];
      assert name == front + [c];
      DashedIsWords(front);
      DashedStep(name);
      JoinedStep(name);
      WordsStep(name);
      var joined, dashed := Dashes(Words(front)), Dashed(front);
      if !InWord(c) {
        OtherCharacter(front, c, joined, dashed);
      } else if front != "" && InWord(front[|front| - 1]) {
        OneMoreCharacter(front, c, joined, dashed);
      } else {
        FirstCharacter(front, c, joined, dashed);
      }
    }
  }

  lemma NoName()
    ensures Words("") == [] && Dashes([]) == "" && Shape("", "", Dashed(""))
  {
  }

  lemma WordsStep(name: string)
    requires name != ""
    ensures Words(name) == [] <==> Words(name[..|name| - 1]) == [] && !InWord(name[|name| - 1])
  {
  }

  lemma {:induction false} RightDashGoes(s: string)
    requires EndsInWords(s)
    ensures TrimDashesRight(s) == s && TrimDashesRight(s + "-") == s
    ensures TrimDashesLeft(s) == s && TrimDashesLeft("-" + s) == s && TrimDashesLeft(s + "-") == s + "-"
    ensures TrimDashesLeft("-" + s + "-") == s + "-"
  {
    assert (s + "-")[..|s|] == s && ("-" + s)[1..] == s && ("-" + s + "-")[1..] == s + "-";
  }

  lemma DashGoes()
    ensures TrimDashesLeft("") == "" && TrimDashesRight("") == "" && TrimDashesLeft("-") == ""
  {
    assert TrimDashesLeft("-") == TrimDashesLeft("-"[1..]);
  }

  /** The key of an entry is its name, in lower case, as words joined by dashes; "project" if it has none. */
  lemma KeyIsWords(title: Title)
    ensures var words := Words(NameOf(title));
            KeyBase(title) == if words == [] then "project" else Dashes(words)
  {
    hide Dashed, Words, Dashes, NameOf, InWord;
    var name := NameOf(title);
    var words := Words(name);
    DashedIsWords(name);
    DashGoes();
    if words != [] {
      var s := Dashes(words);
      RightDashGoes(s);
      assert s + "" == s && "-" + s + "" == "-" + s;
    }
  }

  /** The name that counts: the project's, else that of its directory, else its folder; trimmed, in lower case. */
  lemma NameIs(title: Title)
    ensures NameOf(title)
            == ToLower(if !Blank(title.name) then TrimSpace(title.name)
                       else if !Blank(title.directory) then TrimSpace(title.directory)
                       else if !Blank(title.cwd) then TrimSpace(title.cwd) else "project")
  {
    hide TrimSpace, ToLower;
    AlreadyTrimmed("project");
    var values := [title.name, title.directory, title.cwd, "project"];
    assert FirstNonBlank(["project"]) == "project";
    assert [title.cwd, "project"][1..] == ["project"];
    var last := FirstNonBlank([title.cwd, "project"]);
    assert [title.directory, title.cwd, "project"][1..] == [title.cwd, "project"];
    var middle := FirstNonBlank([title.directory, title.cwd, "project"]);
    assert values[1..] == [title.directory, title.cwd, "project"];
  }

  /** The first entry that asks for a key gets it, each later one with a dash and its rank. */
  lemma KeyIs(entries: seq<Entry>, i: nat, rank: nat)
    requires i < |entries| && entries[i].place != Chats
    requires rank == |Askers(entries, i + 1, Slot(entries[i]))|
    ensures |Keys(entries)| == |entries|
    ensures Keys(entries)[i] == if rank == 1 then Slot(entries[i]) else NumberedKey(Slot(entries[i]), rank)
  {
    hide KeyBase;
    AskedIsNumber(entries, i + 1, Slot(entries[i]));
  }

  /** The chats have the key "chats", whatever the others have. */
  lemma ChatsKeyIs(entries: seq<Entry>, i: nat)
    requires i < |entries| && entries[i].place == Chats
    ensures |Keys(entries)| == |entries| && Keys(entries)[i] == "chats"
  {
  }

  /** The key an entry asks for, and which of the first `n` entries ask for one */
  function Slot(e: Entry): string {
    if e.place == Chats then "chats" else KeyBase(e.summary.title)
  }

  function Askers(entries: seq<Entry>, n: nat, slot: string): set<int>
    requires n <= |entries|
  {
    set j | 0 <= j < n && Slot(entries[j]) == slot
  }

  lemma {:induction false} AskedIsNumber(entries: seq<Entry>, n: nat, slot: string)
    requires n <= |entries|
    ensures Asked(Wishes(entries), n, slot) == |Askers(entries, n, slot)|
  {
    hide Slot;
    if n == 0 {
      assert Askers(entries, 0, slot) == {};
    } else {
      AskedIsNumber(entries, n - 1, slot);
      SlotIsWish(entries, n - 1);
      AskersGrow(entries, n, slot);
    }
  }

  lemma AskersGrow(entries: seq<Entry>, n: nat, slot: string)
    requires 0 < n <= |entries|
    ensures |Askers(entries, n, slot)|
            == |Askers(entries, n - 1, slot)| + if Slot(entries[n - 1]) == slot then 1 else 0
  {
    hide Slot;
    var before := Askers(entries, n - 1, slot);
    assert Askers(entries, n, slot) == if Slot(entries[n - 1]) == slot then before + {n - 1} else before;
  }

  lemma SlotIsWish(entries: seq<Entry>, i: nat)
    requires i < |entries|
    ensures |Wishes(entries)| == |entries| && Wishes(entries)[i].slot == Slot(entries[i])
  {
    hide KeyBase;
  }
}
