/**
  The two files `add_family_member_interactive` writes for a new member:
  `profile.md` (add_member.py:130-218), a front-matter block holding the
  entered fields and the relationships followed by a narrative skeleton,
  and `README.md` (add_member.py:224-247). The text is built exactly as the
  f-strings build it, so that the record parser of module `Frontmatter` can
  be run over it.
 */
module MemberProfile {
  import opened Wrappers
  import opened PyStr
  import opened Frontmatter
  import Yaml

  // ---------------------------------------------------------------------
  // What the prompts returned
  // ---------------------------------------------------------------------

  /** The four relationship choices of the type prompt. */
  datatype RelType = ChildOf | ParentOf | SpouseOf | SiblingOf

  /**
    A collected relationship as the dictionary of line 113 holds it: the
    type as the profile shows it and the related person's text.
   */
  datatype Relationship = Relationship(relType: string, person: string)

  /**
    The entered member fields. The three optional prompts give `None` when
    cancelled and `""` when skipped with Enter.
   */
  datatype Fields = Fields(fullName: string, birthYear: string, birthDate: Option<string>,
                           birthPlace: Option<string>, residence: Option<string>)

  /** The text an f-string shows for an optional answer (`None` prints as `None`). */
  function Shown(o: Option<string>): string {
    match o
    case None => "None"
    case Some(s) => s
  }

  /** Python truthiness of an optional answer. */
  predicate Given(o: Option<string>) {
    o.Some? && o.value != ""
  }

  /** The text a type choice is shown as; a cancelled choice is `None`. None of them holds a hyphen. */
  function RelTypeName(t: Option<RelType>): (r: string)
    ensures NoHyphen(r)
  {
    match t
    case None => "None"
    case Some(ChildOf) => "child_of"
    case Some(ParentOf) => "parent_of"
    case Some(SpouseOf) => "spouse_of"
    case Some(SiblingOf) => "sibling_of"
  }

  /** The birth date shown in the profile, at both places (lines 133 and 199): the full date when given, else the year. */
  function BirthDateShown(f: Fields): (r: string)
    ensures Given(f.birthDate) ==> r == f.birthDate.value
    ensures !Given(f.birthDate) ==> r == f.birthYear
  {
    if Given(f.birthDate) then f.birthDate.value else f.birthYear
  }

  /** The birth place on the "Born" line (line 199); a missing one shows a placeholder. */
  function PlaceShown(f: Fields): (r: string)
    ensures Given(f.birthPlace) ==> r == f.birthPlace.value
    ensures !Given(f.birthPlace) ==> r == "[location]"
  {
    if Given(f.birthPlace) then f.birthPlace.value else "[location]"
  }

  /**
    `s.split()[0]`: the first run of non-whitespace characters, or `None`
    where Python raises `IndexError` because `s` holds no word at all.
   */
  function FirstWord(s: string): (r: Option<string>)
    ensures r.None? <==> LStrip(s) == []
    ensures r.Some? ==> r.value != [] && r.value <= LStrip(s)
    ensures r.Some? ==> forall i :: 0 <= i < |r.value| ==> !IsSpace(r.value[i])
    ensures r.Some? && |r.value| < |LStrip(s)| ==> IsSpace(LStrip(s)[|r.value|])
  {
    var t := LStrip(s);
    if t == [] then None else Some(Word(t))
  }

  /** The longest prefix of `t` without whitespace. */
  function Word(t: string): (w: string)
    ensures w <= t
    ensures forall i :: 0 <= i < |w| ==> !IsSpace(w[i])
    ensures |w| < |t| ==> IsSpace(t[|w|])
  {
    if t == [] || IsSpace(t[0]) then [] else [t[0]] + Word(t[1..])
  }

  // ---------------------------------------------------------------------
  // The profile text
  // ---------------------------------------------------------------------

  /** The start of the metadata block, up to the entered name (lines 130-132). */
  const NamePrefix: string := "\n# Basic Information\nname: "

  /** The end of the name line and the next fields, up to the relationships key (lines 132-138). */
  function AfterName(f: Fields): string {
    "\n"
    + "birth_date: " + BirthDateShown(f) + "\n"
    + "birth_place: " + Shown(f.birthPlace) + "\n"
    + "current_residence: " + Shown(f.residence) + "\n"
    + "\n"
    + "# Family Relationships\n"
    + "relationships:\n"
  }

  /** The metadata block from the line after the opening `---` up to the relationships key (lines 130-138). */
  function MetaHead(f: Fields): string {
    NamePrefix + f.fullName + AfterName(f)
  }

  /** The type prefix of a relationship entry (line 142). */
  const TypeKey: string := "  - type: "

  /** The two lines one relationship adds (line 142). */
  function RelLine(r: Relationship): string {
    TypeKey + r.relType + "\n" + "    person: " + r.person + "\n"
  }

  /** The relationship entries, one after another, in order (lines 141-142). */
  function RelLines(rels: seq<Relationship>): (s: string)
    ensures rels != [] ==> |s| > 0 && s[|s| - 1] == '\n'
  {
    if rels == [] then "" else RelLines(rels[..|rels| - 1]) + RelLine(rels[|rels| - 1])
  }

  /** The comment written when there is no relationship (lines 144-145). */
  const Placeholder: string := "  # Add relationships here\n"

  /** The value of the `relationships` key: the entries, or the placeholder when there are none. */
  function Block(rels: seq<Relationship>): string {
    if rels == [] then Placeholder else RelLines(rels)
  }

  /** The rest of the metadata block: the commented `major_events` and `interviews` keys (lines 147-160). */
  const EventsAndInterviews: string :=
    "\n"
    + "# Key Life Events\n"
    + "major_events:\n"
    + "  # Add important life events here\n"
    + "  # - date: YYYY-MM-DD\n"
    + "  #   event: Description\n"
    + "\n"
    + "# Interviews\n"
    + "interviews:\n"
    + "  # Will be populated as you conduct interviews\n"
    + "  # - date: YYYY-MM-DD\n"
    + "  #   topics: [childhood, career, family, advice]\n"
    + "  #   video_files: [interview-part1.mp4]\n"
    + "  #   notes_file: interview-YYYY-MM-DD.md\n"

  /** Everything between the opening `---` and the closing one of line 161. */
  function Meta(f: Fields, rels: seq<Relationship>): string {
    MetaHead(f) + Block(rels) + EventsAndInterviews
  }

  /** The narrative skeleton after the closing `---` (lines 161-218); `first` is the first word of the name, `today` the creation date. */
  function Body(f: Fields, first: string, today: string): string {
    "\n\n# " + f.fullName + BiographyOpening + first + LifeSections
    + BirthDateShown(f) + " in " + PlaceShown(f) + ClosingSections + today + "*\n"
  }

  /** From the end of the name heading (line 163) to the first word of the name (line 167). */
  const BiographyOpening: string :=
    "\n"
    + "\n"
    + "## Biography\n"
    + "\n"
    + "[Write a brief overview of "

  /** From after the first word of the name (line 167) to the birth date on the "Born" line (line 199). */
  const LifeSections: string :=
    "'s life - a few paragraphs covering " + "their story, what defined them, " + "what they're known for in the " + "family]\n"
    + "\n"
    + "## Early Life & Childhood\n"
    + "\n"
    + "[Details about their upbringing, " + "where they grew up, childhood " + "memories, family situation]\n"
    + "\n"
    + "## Education\n"
    + "\n"
    + "[Schools attended, areas of study, " + "formative educational experiences]\n"
    + "\n"
    + "## Career & Work Life\n"
    + "\n"
    + "[Professional journey, jobs held, " + "career accomplishments, work " + "philosophy]\n"
    + "\n"
    + "## Family Life\n"
    + "\n"
    + "[Marriage(s), children, parenting " + "approach, family values]\n"
    + "\n"
    + "## Interests & Hobbies\n"
    + "\n"
    + "[What they love to do, passions, " + "how they spend free time]\n"
    + "\n"
    + "## Values & Life Philosophy\n"
    + "\n"
    + "[Core beliefs, what they stand for, " + "lessons learned, advice for future " + "generations]\n"
    + "\n"
    + "## Legacy & Impact\n"
    + "\n"
    + "[How they influenced others, what " + "they'll be remembered for, gifts " + "they gave to the family]\n"
    + "\n"
    + "## Important Dates\n"
    + "\n"
    + "- **Born:** "

  /** From the end of the "Born" line (line 199) to the creation date (line 217). */
  const ClosingSections: string :=
    "\n"
    + "- **Married:** [Date and place]\n"
    + "- **Children:** [Names and birth " + "years]\n"
    + "\n"
    + "## Photos & Media\n"
    + "\n"
    + "[Link to photos in the photos/ " + "directory]\n"
    + "\n"
    + "## Related Documents\n"
    + "\n"
    + "[Links to documents in documents/ " + "directory]\n"
    + "\n"
    + "## Notes & Memories\n"
    + "\n"
    + "[Space for family members to add " + "their own memories and stories " + "about this person]\n"
    + "\n"
    + "---\n"
    + "\n"
    + "*Profile created: "

  /** What the loop of lines 141-145 leaves in `profile_content`: the opening `---`, the head and the relationships block. */
  function Head(f: Fields, rels: seq<Relationship>): string {
    Delimiter + MetaHead(f) + Block(rels)
  }

  /** The f-string line 147 appends: the commented keys, the closing `---` and the narrative skeleton `narrative`. */
  function Tail(narrative: string): string {
    EventsAndInterviews + Delimiter + narrative
  }

  /** The whole profile around a narrative skeleton. */
  function ProfileOf(f: Fields, rels: seq<Relationship>, narrative: string): string {
    Head(f, rels) + Tail(narrative)
  }

  /** The profile text, or `None` where building it raises because the name holds no word (line 167). */
  function ProfileText(f: Fields, rels: seq<Relationship>, today: string): (r: Option<string>)
    ensures r.None? <==> FirstWord(f.fullName).None?
  {
    match FirstWord(f.fullName)
    case None => None
    case Some(first) => Some(ProfileOf(f, rels, Body(f, first, today)))
  }

  /** The member's `README.md` (lines 224-247). */
  function ReadmeText(fullName: string, birthYear: string): string {
    "# " + fullName + " (b. " + birthYear + ")\n"
    + "\n"
    + "## Quick Links\n"
    + "- [Full Profile](profile.md)\n"
    + "- [Interviews](interviews/)\n"
    + "- [Photos](photos/)\n"
    + "- [Documents](documents/)\n"
    + "\n"
    + "## Interview Status\n"
    + "- [ ] Initial interview scheduled\n"
    + "- [ ] Childhood & early life\n"
    + "- [ ] Career & work\n"
    + "- [ ] Family stories\n"
    + "- [ ] Wisdom & advice\n"
    + "\n"
    + "## To-Do\n"
    + "- [ ] Scan childhood photos\n"
    + "- [ ] Record video interview\n"
    + "- [ ] Get copies of important " + "documents\n"
    + "- [ ] Follow up questions from " + "first interview\n"
    + "\n"
    + "## Notes\n"
    + "[Add any quick notes or reminders " + "here]\n"
  }

  /**
    The profile as lines 130-218 build it: the head, then one entry per
    relationship appended in a loop, the placeholder when there was none,
    and the tail, whose f-string fails when the name holds no word.
   */
  method BuildProfile(f: Fields, rels: seq<Relationship>, today: string) returns (text: Option<string>)
    ensures text == ProfileText(f, rels, today)
  {
    var head := Delimiter + MetaHead(f);
    var content := head;
    EmptyRight(head);
    var i := 0;
    while i < |rels|
      invariant 0 <= i <= |rels|
      invariant content == head + RelLines(rels[..i])
    {
      RelLinesStep(rels, i);
      Assoc(head, RelLines(rels[..i]), RelLine(rels[i]));
      content := content + RelLine(rels[i]);
      i := i + 1;
    }
    assert rels[..|rels|] == rels;
    if |rels| == 0 {
      EmptyRight(head);
      content := content + Placeholder;
    }
    assert content == Head(f, rels);
    var first := FirstWord(f.fullName);
    if first.None? {
      return None;
    }
    text := Some(content + Tail(Body(f, first.value, today)));
  }

  // ---------------------------------------------------------------------
  // The relationships block
  // ---------------------------------------------------------------------

  lemma EmptyRight(s: string)
    ensures s + "" == s
    ensures s + RelLines([]) == s
  {
  }

  lemma ConcatTake<T>(a: seq<T>, b: seq<T>)
    requires b != []
    ensures (a + b)[..|a + b| - 1] == a + b[..|b| - 1]
    ensures (a + b)[|a + b| - 1] == b[|b| - 1]
  {
  }

  /** One more relationship appends its entry. */
  lemma RelLinesStep(rels: seq<Relationship>, i: nat)
    requires i < |rels|
    ensures RelLines(rels[..i + 1]) == RelLines(rels[..i]) + RelLine(rels[i])
  {
    assert rels[..i + 1][..i] == rels[..i];
  }

  /** The entries of two lists of relationships are the entries of the first, then those of the second. */
  lemma {:induction false} RelLinesConcat(a: seq<Relationship>, b: seq<Relationship>)
    ensures RelLines(a + b) == RelLines(a) + RelLines(b)
    decreases |b|
  {
    if b == [] {
      assert a + b == a;
    } else {
      var c := b[..|b| - 1];
      ConcatTake(a, b);
      RelLinesConcat(a, c);
      Assoc(RelLines(a), RelLines(c), RelLine(b[|b| - 1]));
    }
  }

  lemma Third(a: string, b: string)
    requires |a| >= 3
    ensures (a + b)[2] == a[2]
  {
  }

  /** Every entry, and so every non-empty list of entries, has a hyphen at index 2. */
  lemma {:induction false} RelLinesThird(rels: seq<Relationship>)
    requires rels != []
    ensures |RelLines(rels)| >= 3 && RelLines(rels)[2] == '-'
    decreases |rels|
  {
    var init := rels[..|rels| - 1];
    var r := rels[|rels| - 1];
    if init == [] {
      assert RelLines(init) == "";
      var x := TypeKey + r.relType;
      var y := x + "\n";
      var z := y + "    person: ";
      var w := z + r.person;
      Third(TypeKey, r.relType);
      Third(x, "\n");
      Third(y, "    person: ");
      Third(z, r.person);
      Third(w, "\n");
      assert RelLine(r) == w + "\n";
      assert RelLines(rels) == "" + RelLine(r);
    } else {
      RelLinesThird(init);
      Third(RelLines(init), RelLine(r));
    }
  }

  /** The block is the placeholder exactly when there is no relationship. */
  lemma BlockShape(rels: seq<Relationship>)
    ensures Block(rels) == Placeholder <==> rels == []
  {
    if rels != [] {
      RelLinesThird(rels);
      assert Placeholder[2] == '#';
    }
  }

  // ---------------------------------------------------------------------
  // Where the record parser cuts the profile
  // ---------------------------------------------------------------------

  /** `s` holds no hyphen. */
  predicate NoHyphen(s: string) {
    forall k :: 0 <= k < |s| ==> s[k] != '-'
  }

  /** `s` holds no `---` anywhere. */
  predicate Undelimited(s: string) {
    forall k :: 0 <= k < |s| ==> !OccursAt(s, Delimiter, k)
  }

  /** `s` holds no `---` and does not end with a hyphen, so no `---` forms across its end. */
  predicate Clean(s: string) {
    Undelimited(s) && (s == [] || s[|s| - 1] != '-')
  }

  /** None of the texts a member's entries put into the metadata block holds `---`. */
  predicate EntriesUndelimited(f: Fields, rels: seq<Relationship>) {
    && Undelimited(f.fullName)
    && Undelimited(BirthDateShown(f))
    && Undelimited(Shown(f.birthPlace))
    && Undelimited(Shown(f.residence))
    && forall i :: 0 <= i < |rels| ==> NoHyphen(rels[i].relType) && Undelimited(rels[i].person)
  }

  lemma Plain(s: string)
    requires NoHyphen(s)
    ensures Clean(s)
  {
    forall k | 0 <= k < |s| ensures !OccursAt(s, Delimiter, k) {
      if k + 3 <= |s| {
        assert s[k..k + 3][0] == s[k];
      }
    }
  }

  /** Two texts without `---` do not form one when joined, unless hyphens meet at the seam. */
  lemma Joined(a: string, b: string)
    requires Undelimited(a) && Undelimited(b)
    requires a == [] || b == [] || a[|a| - 1] != '-' || b[0] != '-'
    ensures Undelimited(a + b)
  {
    var s := a + b;
    forall k | 0 <= k < |s| ensures !OccursAt(s, Delimiter, k) {
      if k + 3 <= |s| {
        if k + 3 <= |a| {
          assert s[k..k + 3] == a[k..k + 3];
          assert !OccursAt(a, Delimiter, k);
        } else if |a| <= k {
          assert s[k..k + 3] == b[k - |a|..k - |a| + 3];
          assert !OccursAt(b, Delimiter, k - |a|);
        } else if a[|a| - 1] != '-' {
          assert s[k..k + 3][|a| - 1 - k] == a[|a| - 1];
        } else {
          assert s[k..k + 3][|a| - k] == b[0];
        }
      }
    }
  }

  lemma Cat(a: string, b: string)
    requires Clean(a) && Clean(b)
    ensures Clean(a + b)
  {
    Joined(a, b);
    if b == [] {
      assert a + b == a;
    }
  }

  lemma Open(a: string, b: string)
    requires Clean(a) && Undelimited(b)
    ensures Undelimited(a + b)
  {
    Joined(a, b);
  }

  lemma Close(a: string, b: string)
    requires Undelimited(a) && Clean(b) && b != [] && b[0] != '-'
    ensures Clean(a + b)
  {
    Joined(a, b);
  }

  /** A single hyphen between two clean texts, the second not starting with one. */
  lemma Hyphen(a: string, b: string)
    requires Clean(a) && Clean(b) && b != [] && b[0] != '-'
    ensures Clean(a + "-" + b)
  {
    Open(a, "-");
    Close(a + "-", b);
  }

  lemma PlainAfter(acc: string, piece: string)
    requires Clean(acc) && NoHyphen(piece)
    ensures Clean(acc + piece)
  {
    Plain(piece);
    Cat(acc, piece);
  }

  lemma NewlineClean()
    ensures Clean("\n") && "\n"[0] != '-'
  {
    Plain("\n");
  }

  /** The line `key + value + "\n"` after clean text: no `---` when the value holds none. */
  lemma FieldLine(acc: string, key: string, value: string)
    requires Clean(acc) && Clean(key) && Undelimited(value)
    ensures Clean(acc + key + value + "\n")
  {
    Cat(acc, key);
    Open(acc + key, value);
    NewlineClean();
    Close(acc + key + value, "\n");
  }

  lemma DateComment()
    ensures Clean("  # - date: YYYY-MM-DD\n")
  {
    assert "  # " + "-" + " date: YYYY" + "-" + "MM" + "-" + "DD\n" == "  # - date: YYYY-MM-DD\n";
    Plain("  # ");
    Plain(" date: YYYY");
    Hyphen("  # ", " date: YYYY");
    Plain("MM");
    Hyphen("  # " + "-" + " date: YYYY", "MM");
    Plain("DD\n");
    Hyphen("  # " + "-" + " date: YYYY" + "-" + "MM", "DD\n");
  }

  lemma VideoComment()
    ensures Clean("  #   video_files: [interview-part1.mp4]\n")
  {
    assert "  #   video_files: " + "[interview" + "-" + "part1.mp4]\n" == "  #   video_files: [interview-part1.mp4]\n";
    Plain("  #   video_files: ");
    PlainAfter("  #   video_files: ", "[interview");
    Plain("part1.mp4]\n");
    Hyphen("  #   video_files: " + "[interview", "part1.mp4]\n");
  }

  lemma NotesComment()
    ensures Clean("  #   notes_file: interview-YYYY-MM-DD.md\n")
  {
    assert "  #   notes_file: " + "interview" + "-" + "YYYY" + "-" + "MM" + "-" + "DD.md\n"
      == "  #   notes_file: interview-YYYY-MM-DD.md\n";
    Plain("  #   notes_file: ");
    PlainAfter("  #   notes_file: ", "interview");
    Plain("YYYY");
    Hyphen("  #   notes_file: " + "interview", "YYYY");
    Plain("MM");
    Hyphen("  #   notes_file: " + "interview" + "-" + "YYYY", "MM");
    Plain("DD.md\n");
    Hyphen("  #   notes_file: " + "interview" + "-" + "YYYY" + "-" + "MM", "DD.md\n");
  }

  lemma PopulatedComment()
    ensures Clean("  # Will be populated as you conduct interviews\n")
  {
    assert "  # Will be populated as you " + "conduct interviews\n" == "  # Will be populated as you conduct interviews\n";
    Plain("  # Will be populated as you ");
    PlainAfter("  # Will be populated as you ", "conduct interviews\n");
  }

  lemma TopicsComment()
    ensures Clean("  #   topics: [childhood, career, family, advice]\n")
  {
    assert "  #   topics: [childhood, " + "career, family, advice]\n" == "  #   topics: [childhood, career, family, advice]\n";
    Plain("  #   topics: [childhood, ");
    PlainAfter("  #   topics: [childhood, ", "career, family, advice]\n");
  }

  lemma EventsComment()
    ensures Clean("\n" + "# Key Life Events\n" + "major_events:\n" + "  # Add important life events here\n")
  {
    Plain("\n");
    PlainAfter("\n", "# Key Life Events\n");
    PlainAfter("\n" + "# Key Life Events\n", "major_events:\n");
    PlainAfter("\n" + "# Key Life Events\n" + "major_events:\n", "  # Add important life events here\n");
  }

  /** The fixed comment lines of lines 147-160 hold no `---`. */
  lemma EventsAndInterviewsClean()
    ensures Clean(EventsAndInterviews)
  {
    var s := "\n" + "# Key Life Events\n" + "major_events:\n" + "  # Add important life events here\n";
    EventsComment();
    DateComment();
    Cat(s, "  # - date: YYYY-MM-DD\n");
    s := s + "  # - date: YYYY-MM-DD\n";
    PlainAfter(s, "  #   event: Description\n");
    s := s + "  #   event: Description\n";
    PlainAfter(s, "\n");
    s := s + "\n";
    PlainAfter(s, "# Interviews\n");
    s := s + "# Interviews\n";
    PlainAfter(s, "interviews:\n");
    s := s + "interviews:\n";
    PopulatedComment();
    Cat(s, "  # Will be populated as you conduct interviews\n");
    s := s + "  # Will be populated as you conduct interviews\n";
    Cat(s, "  # - date: YYYY-MM-DD\n");
    s := s + "  # - date: YYYY-MM-DD\n";
    TopicsComment();
    Cat(s, "  #   topics: [childhood, career, family, advice]\n");
    s := s + "  #   topics: [childhood, career, family, advice]\n";
    VideoComment();
    Cat(s, "  #   video_files: [interview-part1.mp4]\n");
    s := s + "  #   video_files: [interview-part1.mp4]\n";
    NotesComment();
    Cat(s, "  #   notes_file: interview-YYYY-MM-DD.md\n");
    s := s + "  #   notes_file: interview-YYYY-MM-DD.md\n";
    assert s == EventsAndInterviews;
  }

  lemma TypeKeyClean()
    ensures Clean(TypeKey)
  {
    assert "  " + "-" + " type: " == TypeKey;
    Plain("  ");
    Plain(" type: ");
    Hyphen("  ", " type: ");
  }

  lemma PersonKeyClean()
    ensures Clean("    person: ")
  {
    Plain("    person: ");
  }

  /** One relationship entry holds no `---` when neither its type nor the person's text does. */
  lemma RelLineClean(r: Relationship)
    requires NoHyphen(r.relType) && Undelimited(r.person)
    ensures Clean(RelLine(r))
  {
    TypeKeyClean();
    PlainAfter(TypeKey, r.relType);
    PlainAfter(TypeKey + r.relType, "\n");
    PersonKeyClean();
    FieldLine(TypeKey + r.relType + "\n", "    person: ", r.person);
  }

  /** The relationship entries hold no `---` when no type and no related person's text does. */
  lemma {:induction false} RelLinesClean(rels: seq<Relationship>)
    requires forall i :: 0 <= i < |rels| ==> NoHyphen(rels[i].relType) && Undelimited(rels[i].person)
    ensures Clean(RelLines(rels))
    decreases |rels|
  {
    if rels == [] {
      Plain("");
    } else {
      var init := rels[..|rels| - 1];
      RelLinesClean(init);
      RelLineClean(rels[|rels| - 1]);
      Cat(RelLines(init), RelLine(rels[|rels| - 1]));
    }
  }

  lemma KeysClean()
    ensures Clean("birth_date: ") && Clean("birth_place: ") && Clean("current_residence: ")
  {
    Plain("birth_date: ");
    Plain("birth_place: ");
    Plain("current_residence: ");
  }

  lemma HeadingsClean()
    ensures Clean("\n" + "# Family Relationships\n" + "relationships:\n")
  {
    Plain("\n");
    PlainAfter("\n", "# Family Relationships\n");
    PlainAfter("\n" + "# Family Relationships\n", "relationships:\n");
  }

  /** The fields after the name add no `---` when none of the entered texts holds one. */
  lemma AfterNameClean(f: Fields)
    requires Undelimited(BirthDateShown(f)) && Undelimited(Shown(f.birthPlace)) && Undelimited(Shown(f.residence))
    ensures Clean(AfterName(f)) && AfterName(f)[0] != '-'
  {
    KeysClean();
    var s := "\n";
    NewlineClean();
    FieldLine(s, "birth_date: ", BirthDateShown(f));
    s := s + "birth_date: " + BirthDateShown(f) + "\n";
    FieldLine(s, "birth_place: ", Shown(f.birthPlace));
    s := s + "birth_place: " + Shown(f.birthPlace) + "\n";
    FieldLine(s, "current_residence: ", Shown(f.residence));
    s := s + "current_residence: " + Shown(f.residence) + "\n";
    HeadingsClean();
    Cat(s, "\n" + "# Family Relationships\n" + "relationships:\n");
    assert AfterName(f) == s + ("\n" + "# Family Relationships\n" + "relationships:\n");
  }

  /** The head of the block holds no `---` when none of the entered texts does. */
  lemma MetaHeadClean(f: Fields)
    requires Undelimited(f.fullName) && Undelimited(BirthDateShown(f))
    requires Undelimited(Shown(f.birthPlace)) && Undelimited(Shown(f.residence))
    ensures Clean(MetaHead(f))
  {
    Plain(NamePrefix);
    Open(NamePrefix, f.fullName);
    AfterNameClean(f);
    Close(NamePrefix + f.fullName, AfterName(f));
  }

  /** The whole metadata block holds no `---` when none of the entered texts does. */
  lemma MetaClean(f: Fields, rels: seq<Relationship>)
    requires EntriesUndelimited(f, rels)
    ensures Clean(Meta(f, rels))
  {
    MetaHeadClean(f);
    if rels == [] {
      Plain(Placeholder);
      Cat(MetaHead(f), Placeholder);
    } else {
      RelLinesClean(rels);
      Cat(MetaHead(f), RelLines(rels));
    }
    EventsAndInterviewsClean();
    Cat(MetaHead(f) + Block(rels), EventsAndInterviews);
  }

  /** `find` returns `j` when `sep` occurs at `j` and nowhere between `start` and `j`. */
  lemma FindIs(s: string, sep: string, start: nat, j: nat)
    requires start <= j && OccursAt(s, sep, j)
    requires forall k :: start <= k < j ==> !OccursAt(s, sep, k)
    ensures Find(s, sep, start) == Some(j)
  {
    FindFirst(s, sep, start);
  }

  lemma WindowIn(text: string, m: string, k: nat)
    requires 3 <= k && k + 3 <= 3 + |m| <= |text| && text[3..3 + |m|] == m
    ensures text[k..k + 3] == m[k - 3..k]
  {
    assert text[k..k + 3] == text[3..3 + |m|][k - 3..k];
  }

  lemma WindowAcross(text: string, m: string, k: nat)
    requires 3 <= k < 3 + |m| < k + 3 <= |text| && text[3..3 + |m|] == m
    ensures text[k..k + 3][2 + |m| - k] == m[|m| - 1]
  {
    assert text[k..k + 3][2 + |m| - k] == text[2 + |m|];
    assert text[3..3 + |m|][|m| - 1] == text[2 + |m|];
  }

  /** In `---` + `m` + `---` + body with `m` clean, the first `---` after the opening one closes `m`. */
  lemma FramedFind(text: string, m: string, body: string)
    requires Clean(m) && text == Delimiter + m + Delimiter + body
    ensures Find(text, Delimiter, 3) == Some(3 + |m|)
  {
    var j := 3 + |m|;
    assert text[3..j] == m;
    assert text[j..j + 3] == Delimiter;
    forall k | 3 <= k < j ensures !OccursAt(text, Delimiter, k) {
      if k + 3 <= j {
        WindowIn(text, m, k);
        assert !OccursAt(m, Delimiter, k - 3);
        assert text[k..k + 3] != Delimiter;
      } else {
        WindowAcross(text, m, k);
        assert m[|m| - 1] != '-';
        assert Delimiter[2 + |m| - k] == '-';
        assert text[k..k + 3] != Delimiter;
      }
    }
    FindIs(text, Delimiter, 3, j);
  }

  /**
    For any clean metadata text `m` and any body, the parser cuts
    `---` + `m` + `---` + body right after `m`: it hands the loader exactly
    `m` and returns the body, stripped; when the loader rejects `m`, the
    whole text comes back as the body. `MetaClean` and `ProfileFrame` show
    that a profile written from entries without `---` has this form, with
    the metadata block as `m`, so the first `---` after the opening one is
    the one of line 161.
   */
  lemma FramedReadBack(text: string, m: string, body: string, load: Yaml.Loader)
    requires Clean(m) && text == Delimiter + m + Delimiter + body
    ensures Find(text, Delimiter, 3) == Some(3 + |m|)
    ensures load(m).Some? ==> ParseFrontmatter(text, load) == Parsed(Yaml.OrEmpty(load(m).value), Strip(body))
    ensures load(m).None? ==> ParseFrontmatter(text, load) == Parsed(Yaml.EmptyMap, text)
  {
    FramedFind(text, m, body);
    assert StartsWith(text, Delimiter) by {
      assert text[..3] == Delimiter;
    }
    assert text[3..3 + |m|] == m;
    assert text[3 + |m| + 3..] == body;
  }

  lemma Regroup(d: string, mh: string, block: string, e: string, body: string)
    ensures (d + mh + block) + (e + d + body) == d + (mh + block + e) + d + body
  {
  }

  /** The profile is the metadata block framed by two delimiters, then the body. */
  lemma ProfileFrame(f: Fields, rels: seq<Relationship>, narrative: string)
    ensures ProfileOf(f, rels, narrative) == Delimiter + Meta(f, rels) + Delimiter + narrative
  {
    Regroup(Delimiter, MetaHead(f), Block(rels), EventsAndInterviews, narrative);
  }

  /** A profile that can be built is the metadata block between two delimiters, then the narrative skeleton. */
  lemma ProfileTextFramed(f: Fields, rels: seq<Relationship>, today: string)
    requires FirstWord(f.fullName).Some?
    ensures ProfileText(f, rels, today)
      == Some(Delimiter + Meta(f, rels) + Delimiter + Body(f, FirstWord(f.fullName).value, today))
  {
    ProfileFrame(f, rels, Body(f, FirstWord(f.fullName).value, today));
  }

  lemma OccursAfter(s: string, t: string, k: nat)
    requires OccursAt(t, Delimiter, k)
    ensures OccursAt(s + t, Delimiter, |s| + k)
  {
    assert (s + t)[|s| + k..|s| + k + 3] == t[k..k + 3];
  }

  lemma OccursBefore(s: string, t: string, k: nat)
    requires OccursAt(s, Delimiter, k)
    ensures OccursAt(s + t, Delimiter, k)
  {
    assert (s + t)[k..k + 3] == s[k..k + 3];
  }

  /** A `---` at `p` in the first part of a text stops the search from 3 at or before `p`. */
  lemma FoundBy(head: string, tail: string, p: nat)
    requires 3 <= p && OccursAt(head, Delimiter, p)
    ensures Find(head + tail, Delimiter, 3).Some? && Find(head + tail, Delimiter, 3).value <= p
  {
    OccursBefore(head, tail, p);
    FindFirst(head + tail, Delimiter, 3);
  }

  /** A `---` at `m` in the name shows up in the head of the profile, inside the metadata block. */
  lemma NameInHead(f: Fields, rels: seq<Relationship>, m: nat)
    requires OccursAt(f.fullName, Delimiter, m)
    ensures OccursAt(Head(f, rels), Delimiter, 3 + |NamePrefix| + m)
    ensures 3 + |NamePrefix| + m < 3 + |MetaHead(f)|
  {
    OccursAfter(NamePrefix, f.fullName, m);
    OccursBefore(NamePrefix + f.fullName, AfterName(f), |NamePrefix| + m);
    OccursAfter(Delimiter, MetaHead(f), |NamePrefix| + m);
    OccursBefore(Delimiter + MetaHead(f), Block(rels), 3 + |NamePrefix| + m);
  }

  /**
    And the condition is needed: a `---` typed into the name ends the block
    the parser hands the loader early, inside the name line.
   */
  lemma DelimiterInNameCutsEarly(f: Fields, rels: seq<Relationship>, narrative: string, m: nat)
    requires OccursAt(f.fullName, Delimiter, m)
    ensures Find(ProfileOf(f, rels, narrative), Delimiter, 3).Some?
    ensures Find(ProfileOf(f, rels, narrative), Delimiter, 3).value < 3 + |MetaHead(f)|
  {
    NameInHead(f, rels, m);
    FoundBy(Head(f, rels), Tail(narrative), 3 + |NamePrefix| + m);
  }
}
