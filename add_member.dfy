/**
  `add_family_member_interactive` (add_member.py) without its terminal:
  every prompt's answer is an input, the existing paths are a set, and the
  command's effect is an outcome saying which directory and which two files
  it creates. The prompts' validators, the member slug and the relationship
  loop are modelled as the source writes them.
 */
module AddMember {
  import opened Wrappers
  import opened PyStr
  import opened Snapshot
  import opened Frontmatter
  import opened MemberProfile
  import Yaml
  import BranchMetadata
  import SiteData

  // ---------------------------------------------------------------------
  // The prompts' validators (lines 54 and 63)
  // ---------------------------------------------------------------------

  /** The full-name validator as written: `len(text) > 0`. */
  predicate NameAcceptedAsWritten(text: string) {
    |text| > 0
  }

  /**
    The full-name validator the profile needs: the name holds a word, so
    that `full_name.split()[0]` (line 167) has something to return.
   */
  predicate NameAccepted(text: string) {
    FirstWord(text).Some?
  }

  /** The birth-year validator: `text.isdigit() and len(text) == 4`, over ASCII digits. */
  predicate YearAccepted(text: string) {
    IsDigits(text) && |text| == 4
  }

  /** An accepted year reads as a number below 10000; every year from 1000 to 9999 is accepted. */
  lemma YearAcceptedRange(text: string, n: nat)
    ensures YearAccepted(text) ==> ParseInt(text).Some? && 0 <= ParseInt(text).value < 10000
    ensures 1000 <= n < 10000 ==> YearAccepted(NatToDecimal(n))
  {
    if YearAccepted(text) {
      DigitsBelow(text);
    }
    if 1000 <= n < 10000 {
      assert NatToDecimal(n) == NatToDecimal(n / 10) + [DigitChar(n % 10)];
      assert NatToDecimal(n / 10) == NatToDecimal(n / 100) + [DigitChar(n / 10 % 10)];
      assert NatToDecimal(n / 100) == NatToDecimal(n / 1000) + [DigitChar(n / 100 % 10)];
    }
  }

  /** A string of `k` digits denotes a number below `10^k`. */
  lemma {:induction false} DigitsBelow(s: string)
    requires forall i :: 0 <= i < |s| ==> IsDigit(s[i])
    ensures DigitsValue(s) < Pow10(|s|)
    decreases |s|
  {
    if s != [] {
      DigitsBelow(s[..|s| - 1]);
    }
  }

  function Pow10(k: nat): (p: nat)
    ensures p >= 1
  {
    if k == 0 then 1 else 10 * Pow10(k - 1)
  }

  /** The validator as written lets a name of blanks through, and that name holds no word. */
  lemma BlankNameAcceptedAsWritten()
    ensures NameAcceptedAsWritten(" ") && !NameAccepted(" ")
  {
    assert LStrip(" ") == LStrip(" "[1..]);
  }

  /** A name the corrected validator accepts is also accepted as written. */
  lemma NameAcceptedIsStricter(text: string)
    ensures NameAccepted(text) ==> NameAcceptedAsWritten(text)
  {
  }

  // ---------------------------------------------------------------------
  // The member slug (line 116)
  // ---------------------------------------------------------------------

  /** `full_name.lower().replace(' ', '-') + '-' + birth_year`. */
  function MemberSlug(fullName: string, birthYear: string): (slug: string)
    ensures |slug| == |fullName| + 1 + |birthYear|
    ensures slug[|fullName|] == '-' && slug[|fullName| + 1..] == birthYear
    ensures forall i :: 0 <= i < |fullName| ==> slug[i] == if fullName[i] == ' ' then '-' else ToLower(fullName[i])
  {
    ReplaceChar(Lower(fullName), ' ', '-') + "-" + birthYear
  }

  /**
    With an accepted year the slug holds no space and no upper-case letter,
    ends with `-` and the four digits of the year, and the year reads back
    from its last four characters.
   */
  lemma SlugEndsWithYear(fullName: string, birthYear: string)
    requires YearAccepted(birthYear)
    ensures var slug := MemberSlug(fullName, birthYear);
      && |slug| >= 5
      && slug[|slug| - 5] == '-'
      && slug[|slug| - 4..] == birthYear
      && ParseInt(slug[|slug| - 4..]) == ParseInt(birthYear)
      && (forall i :: 0 <= i < |slug| ==> slug[i] != ' ' && !IsUpper(slug[i]))
  {
    var slug := MemberSlug(fullName, birthYear);
    forall i | 0 <= i < |slug| ensures slug[i] != ' ' && !IsUpper(slug[i]) {
      if i > |fullName| {
        assert slug[i] == birthYear[i - |fullName| - 1];
        assert IsDigit(birthYear[i - |fullName| - 1]);
      }
    }
  }

  /** Names that differ only in case or in spaces against hyphens share a slug, and so a member directory. */
  lemma SlugCollision()
    ensures MemberSlug("Ann Lee", "1950") == MemberSlug("ann-lee", "1950")
  {
    var a := MemberSlug("Ann Lee", "1950");
    var b := MemberSlug("ann-lee", "1950");
    assert |a| == |b|;
    forall i | 0 <= i < |a| ensures a[i] == b[i] {
      if i > 7 {
        assert a[i] == "1950"[i - 8] == b[i];
      }
    }
  }

  // ---------------------------------------------------------------------
  // The relationship loop (lines 95-113)
  // ---------------------------------------------------------------------

  /**
    One round of the loop: a type chosen and the related person's text
    typed (either prompt may be cancelled, giving `None`), or the
    "Done adding relationships" choice.
   */
  datatype Round = Pick(relType: Option<RelType>, person: Option<string>) | Finish

  /** A round that names a person appends a relationship. */
  predicate Appends(r: Round) {
    r.Pick? && Given(r.person)
  }

  /** What one round appends: a relationship exactly when the person's text is non-empty. */
  function PickedOne(r: Round): (rels: seq<Relationship>)
    ensures |rels| <= 1
    ensures rels != [] <==> Appends(r)
    ensures rels != [] ==> rels[0] == Relationship(RelTypeName(r.relType), r.person.value)
  {
    if r.Pick? && Given(r.person) then [Relationship(RelTypeName(r.relType), r.person.value)] else []
  }

  /** The relationships the rounds append, in order. */
  function Picked(rounds: seq<Round>): (rels: seq<Relationship>)
    ensures |rels| <= |rounds|
  {
    if rounds == [] then [] else Picked(rounds[..|rounds| - 1]) + PickedOne(rounds[|rounds| - 1])
  }

  /** Every relationship appended names a person: an empty name skips the round. */
  lemma {:induction false} PickedNamed(rounds: seq<Round>)
    ensures forall i :: 0 <= i < |Picked(rounds)| ==> Picked(rounds)[i].person != ""
  {
    if rounds != [] {
      var init := rounds[..|rounds| - 1];
      PickedNamed(init);
      assert Picked(rounds) == Picked(init) + PickedOne(rounds[|rounds| - 1]);
    }
  }

  /** The relationships of two runs of rounds are those of the first, then those of the second. */
  lemma {:induction false} PickedConcat(a: seq<Round>, b: seq<Round>)
    ensures Picked(a + b) == Picked(a) + Picked(b)
    decreases |b|
  {
    if b == [] {
      assert a + b == a;
    } else {
      var c := b[..|b| - 1];
      assert (a + b)[..|a + b| - 1] == a + c;
      assert (a + b)[|a + b| - 1] == b[|b| - 1];
      PickedConcat(a, c);
    }
  }

  /** No relationship is appended exactly when no round names a person. */
  lemma {:induction false} PickedEmpty(rounds: seq<Round>)
    ensures Picked(rounds) == [] <==> forall i :: 0 <= i < |rounds| ==> !Appends(rounds[i])
  {
    if rounds != [] {
      var init, last := rounds[..|rounds| - 1], rounds[|rounds| - 1];
      PickedEmpty(init);
      assert Picked(rounds) == Picked(init) + PickedOne(last);
      assert (Picked(rounds) == []) <==> (Picked(init) == [] && !Appends(last)) by {
        assert |Picked(rounds)| == |Picked(init)| + |PickedOne(last)|;
      }
      assert (forall i :: 0 <= i < |rounds| ==> !Appends(rounds[i]))
        <==> (forall i :: 0 <= i < |init| ==> !Appends(init[i])) && !Appends(last) by {
        assert forall i :: 0 <= i < |init| ==> init[i] == rounds[i];
      }
    }
  }

  /** The first "Done" round. */
  function FirstFinish(rounds: seq<Round>): (k: Option<nat>)
    ensures k.Some? ==> k.value < |rounds| && rounds[k.value].Finish?
    ensures k.Some? ==> forall j :: 0 <= j < k.value ==> rounds[j].Pick?
    ensures k.None? ==> forall j :: 0 <= j < |rounds| ==> rounds[j].Pick?
  {
    if rounds == [] then None
    else if rounds[0].Finish? then Some(0)
    else match FirstFinish(rounds[1..])
      case None => None
      case Some(k) => Some(k + 1)
  }

  /** A "Done" round after "Add relationship" rounds only is the first one. */
  lemma FirstFinishAt(rounds: seq<Round>, i: nat)
    requires i < |rounds| && rounds[i].Finish?
    requires forall j :: 0 <= j < i ==> rounds[j].Pick?
    ensures FirstFinish(rounds) == Some(i)
  {
  }

  /** How the loop ends: at a "Done" round, or not at all while the answers last. */
  datatype LoopEnd = Finished(rels: seq<Relationship>, rounds: nat) | Waiting

  /** The loop: it runs until the first "Done" and keeps what the rounds before it append. */
  function RelationshipLoop(rounds: seq<Round>): LoopEnd {
    match FirstFinish(rounds)
    case None => Waiting
    case Some(k) => Finished(Picked(rounds[..k]), k + 1)
  }

  /** Answers given after "Done" are never asked for. */
  lemma LaterRoundsIgnored(rounds: seq<Round>, more: seq<Round>)
    requires RelationshipLoop(rounds).Finished?
    ensures RelationshipLoop(rounds + more) == RelationshipLoop(rounds)
  {
    var k := FirstFinish(rounds).value;
    FirstFinishPrefix(rounds, more, k);
    assert (rounds + more)[..k] == rounds[..k];
  }

  lemma {:induction false} FirstFinishPrefix(rounds: seq<Round>, more: seq<Round>, k: nat)
    requires FirstFinish(rounds) == Some(k)
    ensures FirstFinish(rounds + more) == Some(k)
    decreases |rounds|
  {
    if !rounds[0].Finish? {
      assert (rounds + more)[1..] == rounds[1..] + more;
      FirstFinishPrefix(rounds[1..], more, k - 1);
    }
  }

  /** The loop ends on the first "Done" and nowhere else. */
  lemma LoopEndsOnDone(rounds: seq<Round>)
    ensures RelationshipLoop(rounds).Finished? <==> exists k :: 0 <= k < |rounds| && rounds[k].Finish?
    ensures RelationshipLoop(rounds).Finished? ==>
      var n := RelationshipLoop(rounds).rounds;
      0 < n <= |rounds| && rounds[n - 1].Finish? && forall j :: 0 <= j < n - 1 ==> rounds[j].Pick?
  {
  }

  /** The `while True` loop of lines 97-113, appending to `relationships`. */
  method CollectRelationships(rounds: seq<Round>) returns (rels: seq<Relationship>, done: bool)
    ensures done <==> RelationshipLoop(rounds).Finished?
    ensures done ==> rels == RelationshipLoop(rounds).rels
  {
    rels, done := [], false;
    var i := 0;
    while i < |rounds|
      invariant 0 <= i <= |rounds|
      invariant rels == Picked(rounds[..i])
      invariant forall j :: 0 <= j < i ==> rounds[j].Pick?
    {
      var r := rounds[i];
      if r.Finish? {
        FirstFinishAt(rounds, i);
        done := true;
        return;
      }
      PickedStep(rounds, i);
      if Given(r.person) {
        rels := rels + [Relationship(RelTypeName(r.relType), r.person.value)];
      } else {
        assert rels + PickedOne(r) == rels;
      }
      i := i + 1;
    }
    assert FirstFinish(rounds).None?;
  }

  /** One more round appends what that round appends. */
  lemma PickedStep(rounds: seq<Round>, i: nat)
    requires i < |rounds|
    ensures Picked(rounds[..i + 1]) == Picked(rounds[..i]) + PickedOne(rounds[i])
  {
    assert rounds[..i + 1][..i] == rounds[..i];
  }

  // ---------------------------------------------------------------------
  // The command (lines 21-273)
  // ---------------------------------------------------------------------

  /** The answers given to the prompts, in the order they are asked; `None` is a cancelled prompt. */
  datatype Answers = Answers(
    branchChoice: Option<string>,
    fullName: Option<string>,
    birthYear: Option<string>,
    birthDate: Option<string>,
    birthPlace: Option<string>,
    residence: Option<string>,
    addRelationships: Option<bool>,
    rounds: seq<Round>)

  /** How the command ends. */
  datatype AddOutcome =
    | NoFamiliesDirectory
    | NoBranches
    | Cancelled
    | AwaitingRelationships
    | MemberExists(slug: string)
    | ProfileFailed(memberPath: string)
    | Created(memberPath: string, fields: Fields, relationships: seq<Relationship>)

  /** Whether the command made a directory: the member directory and its four subdirectories. */
  predicate CreatesDirectories(o: AddOutcome) {
    o.ProfileFailed? || o.Created?
  }

  /** `Path('families') / branch_name / 'members' / member_slug`. */
  function MemberPath(branch: string, slug: string): string {
    "families/" + branch + "/members/" + slug
  }

  /** The branch the member goes into (lines 27-46), or the outcome of returning early. */
  function ResolveBranch(branchArg: Option<string>, families: Families, choice: Option<string>): (r: Resolved)
    ensures Given(branchArg) ==> r == Branch(branchArg.value)
    ensures !Given(branchArg) ==>
      (r.Branch? <==> families.Some? && SiteData.DirNames(families.value) != [] && Given(choice))
    ensures !Given(branchArg) && r.Branch? ==> r.name == choice.value
    ensures r.Stop? ==> !CreatesDirectories(r.outcome)
  {
    if Given(branchArg) then Branch(branchArg.value)
    else if families.None? then Stop(NoFamiliesDirectory)
    else if SiteData.DirNames(families.value) == [] then Stop(NoBranches)
    else if !Given(choice) then Stop(Cancelled)
    else Branch(choice.value)
  }

  /** The branch, or the outcome of an early return. */
  datatype Resolved = Branch(name: string) | Stop(outcome: AddOutcome)

  /**
    The command after the branch is known: name and year (a cancelled or
    empty answer returns), the relationships, the slug and the existence
    check, then the two files. Building the profile raises when the name
    holds no word, after the directories were made.
   */
  function AddToBranch(branch: string, a: Answers, existing: set<string>, today: string): AddOutcome {
    if !Given(a.fullName) || !Given(a.birthYear) then Cancelled
    else
      var loop := if a.addRelationships == Some(true) then RelationshipLoop(a.rounds) else Finished([], 0);
      if loop.Waiting? then AwaitingRelationships
      else
        var slug := MemberSlug(a.fullName.value, a.birthYear.value);
        var path := MemberPath(branch, slug);
        if path in existing then MemberExists(slug)
        else
          var f := Fields(a.fullName.value, a.birthYear.value, a.birthDate, a.birthPlace, a.residence);
          if FirstWord(f.fullName).None? then ProfileFailed(path) else Created(path, f, loop.rels)
  }

  /**
    The two files a created member gets: `profile.md`, which can be built
    because the name holds a word, and `README.md`.
   */
  function ProfileFile(o: AddOutcome, today: string): string
    requires o.Created? && FirstWord(o.fields.fullName).Some?
  {
    ProfileText(o.fields, o.relationships, today).value
  }

  function ReadmeFile(o: AddOutcome): string
    requires o.Created?
  {
    ReadmeText(o.fields.fullName, o.fields.birthYear)
  }

  /** `add_family_member_interactive`, up to the "add another" question. */
  function AddMemberOf(branchArg: Option<string>, families: Families, a: Answers,
                       existing: set<string>, today: string): AddOutcome
  {
    match ResolveBranch(branchArg, families, a.branchChoice)
    case Stop(o) => o
    case Branch(b) => AddToBranch(b, a, existing, today)
  }

  /** A cancelled or empty name makes the command return before anything is created. */
  lemma EmptyNameCreatesNothing(branchArg: Option<string>, families: Families, a: Answers,
                                existing: set<string>, today: string)
    requires a.fullName.None? || a.fullName == Some("")
    ensures !CreatesDirectories(AddMemberOf(branchArg, families, a, existing, today))
  {
  }

  /**
    The command creates a member directory only at a path that did not exist,
    and reports an existing one instead of touching it.
   */
  lemma CreatesOnlyNewPaths(branchArg: Option<string>, families: Families, a: Answers,
                            existing: set<string>, today: string)
    ensures var o := AddMemberOf(branchArg, families, a, existing, today);
      && (CreatesDirectories(o) ==> o.memberPath !in existing)
      && (o.MemberExists? ==> exists b :: MemberPath(b, o.slug) in existing)
  {
    var o := AddMemberOf(branchArg, families, a, existing, today);
    if o.MemberExists? {
      var b := ResolveBranch(branchArg, families, a.branchChoice).name;
      assert MemberPath(b, o.slug) in existing;
    }
  }

  /**
    A created member lives in the branch's `members` directory under its
    slug, at a path that did not exist, with the entered fields and the
    relationships of the loop, and its name holds a word.
   */
  lemma CreatedShape(branch: string, a: Answers, existing: set<string>, today: string)
    requires AddToBranch(branch, a, existing, today).Created?
    ensures var o := AddToBranch(branch, a, existing, today);
      && o.memberPath == MemberPath(branch, MemberSlug(a.fullName.value, a.birthYear.value))
      && o.memberPath !in existing
      && o.fields == Fields(a.fullName.value, a.birthYear.value, a.birthDate, a.birthPlace, a.residence)
      && o.relationships == (if a.addRelationships == Some(true) then RelationshipLoop(a.rounds).rels else [])
      && FirstWord(o.fields.fullName).Some?
  {
  }

  /** The profile of a created member starts with `---` and frames the metadata block by two delimiters. */
  lemma CreatedProfileFramed(o: AddOutcome, today: string)
    requires o.Created? && FirstWord(o.fields.fullName).Some?
    ensures StartsWith(ProfileFile(o, today), Delimiter)
    ensures ProfileFile(o, today)
      == Delimiter + Meta(o.fields, o.relationships) + Delimiter + Body(o.fields, FirstWord(o.fields.fullName).value, today)
  {
    ProfileTextFramed(o.fields, o.relationships, today);
    ProfileStartsWithDelimiter(o.fields, o.relationships, Body(o.fields, FirstWord(o.fields.fullName).value, today));
  }

  lemma ProfileStartsWithDelimiter(f: Fields, rels: seq<Relationship>, narrative: string)
    ensures StartsWith(ProfileOf(f, rels, narrative), Delimiter)
  {
    PrefixedStartsWith(Delimiter, MetaHead(f) + Block(rels), Tail(narrative));
    assert Delimiter + MetaHead(f) + Block(rels) == Delimiter + (MetaHead(f) + Block(rels));
  }

  lemma PrefixedStartsWith(p: string, a: string, b: string)
    ensures StartsWith(p + a + b, p)
  {
    assert (p + a + b)[..|p|] == p;
  }

  /**
    The finding of line 54 as written: a name of blanks passes the
    validator, the member directories are made, and building the profile
    raises, so neither `profile.md` nor `README.md` is written.
   */
  lemma BlankNameLeavesEmptyMember(branch: string, year: string, existing: set<string>, today: string)
    requires YearAccepted(year)
    requires MemberPath(branch, MemberSlug(" ", year)) !in existing
    ensures var a := Answers(None, Some(" "), Some(year), Some(""), Some(""), Some(""), Some(false), []);
      && NameAcceptedAsWritten(" ")
      && AddToBranch(branch, a, existing, today) == ProfileFailed(MemberPath(branch, MemberSlug(" ", year)))
  {
    BlankNameAcceptedAsWritten();
  }

  /**
    With the corrected validator every accepted name leads, at a new path
    and once the relationship loop is done, to both files being written.
   */
  lemma AcceptedNameCreatesProfile(branch: string, a: Answers, existing: set<string>, today: string)
    requires a.fullName.Some? && NameAccepted(a.fullName.value)
    requires a.birthYear.Some? && YearAccepted(a.birthYear.value)
    requires a.addRelationships == Some(true) ==> RelationshipLoop(a.rounds).Finished?
    requires MemberPath(branch, MemberSlug(a.fullName.value, a.birthYear.value)) !in existing
    ensures AddToBranch(branch, a, existing, today).Created?
  {
  }

  // ---------------------------------------------------------------------
  // What the scans make of a profile this command wrote
  // ---------------------------------------------------------------------

  /**
    The birth date written when no full date was entered is the year, and
    `collect_branch_metadata` reads the year back from it when the loader
    keeps it as text.
   */
  lemma DefaultBirthDateGivesYear(f: Fields)
    requires !Given(f.birthDate) && YearAccepted(f.birthYear)
    ensures BranchMetadata.BirthYear(Yaml.Str(BirthDateShown(f))) == Some(DigitsValue(f.birthYear))
  {
    BranchMetadata.BirthYearOfText(f.birthYear, "");
  }

  /**
    The `interviews:` key of a freshly written profile holds only comments,
    which YAML loads as null. For a profile of the written form (the
    metadata block `meta`, clean by `MetaClean`, framed by two delimiters
    as `ProfileFrame` states), a loader that does so makes
    `collect_branch_metadata` skip the member (it is never appended) and
    makes `collect_family_data` raise, ending the site build.
   */
  lemma FreshProfileWithNullInterviews(e: MemberEntry, meta: string, narrative: string,
                                        load: Yaml.Loader, m: map<string, Yaml.Value>, branch: string)
    requires Clean(meta)
    requires e.isDir && e.profile == Some(Delimiter + meta + Delimiter + narrative)
    requires load(meta) == Some(Yaml.Map(m)) && "interviews" in m && m["interviews"] == Yaml.Null
    ensures BranchMetadata.MetaOf(e, load) == Some(Yaml.Map(m))
    ensures !BranchMetadata.Appended(Yaml.Map(m))
    ensures SiteData.ReadMember(e, branch, load) == SiteData.Fatal(SiteData.InterviewsHaveNoLength)
  {
    FramedReadBack(e.profile.value, meta, narrative, load);
    assert Yaml.Truthy(Yaml.Map(m));
  }


  // ---------------------------------------------------------------------
  // The command as the source runs it
  // ---------------------------------------------------------------------

  /**
    The steps after the branch is known, with the relationship loop and the
    profile built by `+=`; `profile` and `readme` are the texts written.
   */
  method AddFamilyMember(branch: string, a: Answers, existing: set<string>, today: string)
    returns (o: AddOutcome, profile: string, readme: string)
    ensures o == AddToBranch(branch, a, existing, today)
    ensures o.Created? ==> profile == ProfileFile(o, today) && readme == ReadmeFile(o)
  {
    profile, readme := "", "";
    if !Given(a.fullName) || !Given(a.birthYear) {
      return Cancelled, profile, readme;
    }
    var rels: seq<Relationship> := [];
    if a.addRelationships == Some(true) {
      var done;
      rels, done := CollectRelationships(a.rounds);
      if !done {
        return AwaitingRelationships, profile, readme;
      }
    }
    var slug := MemberSlug(a.fullName.value, a.birthYear.value);
    var path := MemberPath(branch, slug);
    if path in existing {
      return MemberExists(slug), profile, readme;
    }
    var f := Fields(a.fullName.value, a.birthYear.value, a.birthDate, a.birthPlace, a.residence);
    var text := BuildProfile(f, rels, today);
    if text.None? {
      return ProfileFailed(path), profile, readme;
    }
    o, profile, readme := Created(path, f, rels), text.value, ReadmeText(f.fullName, f.birthYear);
  }
}
