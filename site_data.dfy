/**
  `collect_family_data` (build_web.py): the data the web pages are rendered
  from. Every non-hidden directory of `families/` becomes a branch; every
  member directory with a `profile.md` becomes a member record, kept both
  in its branch and in one flat list. There is no exception handling, so a
  profile the code cannot read aborts the whole collection.
 */
module SiteData {
  import opened Wrappers
  import opened PyStr
  import opened Yaml
  import opened Frontmatter
  import opened Snapshot

  /** The `member_data` dict of the site (lines 83-94). */
  datatype SiteMember = SiteMember(
    slug: string,
    name: Value,
    birthDate: Value,
    birthPlace: Value,
    relationships: Value,
    interviews: Value,
    branch: string,
    profileContent: string,
    hasPhotos: bool,
    hasVideos: bool)

  /** The `branch_data` dict (lines 55-60, 67). `description` is absent without a README. */
  datatype BranchData = BranchData(
    name: string,
    displayName: string,
    path: string,
    members: seq<SiteMember>,
    description: Option<string>)

  datatype SiteStats = SiteStats(totalMembers: nat, totalInterviews: nat, totalBranches: nat)

  /** The `data` dict. */
  datatype Site = Site(branches: seq<BranchData>, members: seq<SiteMember>, stats: SiteStats)

  /** Why the collection stopped: `.get` on metadata that is not a mapping, or `len` of unsized interviews. */
  datatype AbortReason = MetadataNotMapping | InterviewsHaveNoLength

  /** The collected data, or the exception that ends the command. */
  datatype Collection = Collected(data: Site) | Aborted(branch: string, member: string, reason: AbortReason)

  const EmptySite: Site := Site([], [], SiteStats(0, 0, 0))

  // ---------------------------------------------------------------------
  // Branch display name and description (lines 57, 63-67)
  // ---------------------------------------------------------------------

  /** `name.replace('-', ' ').title()`. */
  function DisplayName(name: string): string {
    Title(ReplaceChar(name, '-', ' '))
  }

  /**
    The display name is as long as the directory name, has a space wherever
    the name has a `-`, and is the title-cased form of the name with those
    spaces.
   */
  lemma DisplayNameSpec(name: string)
    ensures var d := DisplayName(name);
      && |d| == |name|
      && '-' !in d
      && (forall i :: 0 <= i < |name| ==> (name[i] == '-' ==> d[i] == ' '))
      && (forall i :: 0 <= i < |name| ==> d[i] == TitleCharAt(ReplaceChar(name, '-', ' '), i))
  {
    var s := ReplaceChar(name, '-', ' ');
    TitleSpec(s);
    forall i | 0 <= i < |name| ensures DisplayName(name)[i] != '-' {
      assert s[i] != '-';
    }
  }

  /** `body.split('\n')[0].replace('#', '').strip()`. */
  function DescriptionOfBody(body: string): (d: string)
    ensures d == [] || (!IsSpace(d[0]) && !IsSpace(d[|d| - 1]))
  {
    Strip(RemoveChar(Before(body, '\n'), '#'))
  }

  /** The description is set only when `README.md` exists; it comes from the parsed body. */
  function Description(readme: Option<string>, load: Loader): (r: Option<string>)
    ensures r.Some? <==> readme.Some?
  {
    match readme
    case None => None
    case Some(content) => Some(DescriptionOfBody(ParseFrontmatter(content, load).body))
  }

  /** Characters of `Strip(s)` all come from `s`. */
  lemma StripWithin(s: string, c: char)
    requires c !in s
    ensures c !in Strip(s)
  {
    StripIsTrimmedSlice(s);
    var a := |s| - |LStrip(s)|;
    forall i | 0 <= i < |Strip(s)| ensures Strip(s)[i] != c {
      assert Strip(s)[i] == s[a + i];
    }
  }

  /** The description holds no `#` and no line break, and may be empty. */
  lemma DescriptionShape(body: string)
    ensures '#' !in DescriptionOfBody(body) && '\n' !in DescriptionOfBody(body)
  {
    var first := Before(body, '\n');
    var cleaned := RemoveChar(first, '#');
    assert multiset(cleaned)['#'] == 0;
    assert multiset(cleaned)['\n'] == 0 by {
      assert multiset(first)['\n'] == 0;
    }
    StripWithin(cleaned, '#');
    StripWithin(cleaned, '\n');
  }

  lemma {:induction false} RemoveCharConcat(a: string, b: string, c: char)
    ensures RemoveChar(a + b, c) == RemoveChar(a, c) + RemoveChar(b, c)
  {
    if a != [] {
      assert (a + b)[0] == a[0] && (a + b)[1..] == a[1..] + b;
      RemoveCharConcat(a[1..], b, c);
    } else {
      assert a + b == b;
    }
  }

  lemma {:induction false} RemoveCharAbsent(s: string, c: char)
    requires c !in s
    ensures RemoveChar(s, c) == s
  {
    if s != [] {
      assert s[0] != c && c !in s[1..];
      RemoveCharAbsent(s[1..], c);
    }
  }

  /** A Markdown heading line `# Title` gives `Title` as the description. */
  lemma HeadingDescription(title: string, rest: string)
    requires |title| > 0 && !IsSpace(title[0]) && !IsSpace(title[|title| - 1])
    requires '#' !in title && '\n' !in title
    ensures DescriptionOfBody("# " + title + "\n" + rest) == title
  {
    HeadingLine(title, rest);
    HeadingHashes(title);
    HeadingStrip(title);
  }

  /** The first line of `# title` + newline + `rest` is `# title`. */
  lemma HeadingLine(title: string, rest: string)
    requires '\n' !in title
    ensures Before("# " + title + "\n" + rest, '\n') == "# " + title
  {
    var line := "# " + title;
    assert '\n' !in line by {
      forall i | 0 <= i < |line| ensures line[i] != '\n' {
        if i >= 2 { assert line[i] == title[i - 2]; }
      }
    }
    assert "# " + title + "\n" + rest == line + ['\n'] + rest;
    BeforeJoined(line, '\n', rest);
  }

  /** Removing the `#` of a heading line leaves the space and the title. */
  lemma HeadingHashes(title: string)
    requires '#' !in title
    ensures RemoveChar("# " + title, '#') == " " + title
  {
    RemoveCharConcat("#", " " + title, '#');
    assert "# " + title == "#" + (" " + title);
    RemoveCharAbsent(" " + title, '#');
    assert RemoveChar("#", '#') == [];
  }

  /** Stripping the space in front of a trimmed title gives the title. */
  lemma HeadingStrip(title: string)
    requires |title| > 0 && !IsSpace(title[0]) && !IsSpace(title[|title| - 1])
    ensures Strip(" " + title) == title
  {
    var s := " " + title;
    assert LStrip(s) == LStrip(title);
    StripTrimmed(title);
    assert LStrip(title) == title;
  }

  // ---------------------------------------------------------------------
  // Members (lines 72-99)
  // ---------------------------------------------------------------------

  /** What reading one entry of `members/` gives. */
  datatype MemberRead = Skipped | Read(member: SiteMember, interviews: nat) | Fatal(reason: AbortReason)

  function ReadMember(e: MemberEntry, branch: string, load: Loader): (r: MemberRead)
    ensures r.Skipped? <==> !e.isDir || e.profile.None?
    ensures r.Read? ==> && r.member.slug == e.name && r.member.branch == branch
                        && r.member.profileContent == ParseFrontmatter(e.profile.value, load).body
                        && r.member.hasPhotos == e.photosNonEmpty && r.member.hasVideos == e.videosNonEmpty
  {
    if !e.isDir || e.profile.None? then Skipped
    else
      var p := ParseFrontmatter(e.profile.value, load);
      if !p.meta.Map? then Fatal(MetadataNotMapping)
      else
        var m := p.meta.entries;
        var interviews := Get(m, "interviews", List([]));
        var member := SiteMember(
          e.name,
          Get(m, "name", Str(e.name)),
          Get(m, "birth_date", Str("")),
          Get(m, "birth_place", Str("")),
          Get(m, "relationships", List([])),
          interviews,
          branch,
          p.body,
          e.photosNonEmpty,
          e.videosNonEmpty);
        match PyLen(interviews)
        case None => Fatal(InterviewsHaveNoLength)
        case Some(n) => Read(member, n)
  }

  /** A profile without a `name:` is listed under its directory name. */
  lemma NameDefaultsToSlug(e: MemberEntry, branch: string, load: Loader)
    requires e.isDir && e.profile.Some?
    requires var meta := ParseFrontmatter(e.profile.value, load).meta;
      meta.Map? && "name" !in meta.entries
    requires ReadMember(e, branch, load).Read?
    ensures ReadMember(e, branch, load).member.name == Str(e.name)
  {
  }

  /** The reading of each entry, in listing order. */
  function Reads(es: seq<MemberEntry>, branch: string, load: Loader): (r: seq<MemberRead>)
    ensures |r| == |es| && forall j :: 0 <= j < |es| ==> r[j] == ReadMember(es[j], branch, load)
  {
    if es == [] then [] else Reads(es[..|es| - 1], branch, load) + [ReadMember(es[|es| - 1], branch, load)]
  }

  /** The member loop of one branch so far: the records and interviews added, or the abort. */
  datatype BranchScan = Ok(members: seq<SiteMember>, interviews: nat) | Fail(member: string, reason: AbortReason)

  /** The member loop over the readings: skip, append, or stop at the first fatal one. */
  function ScanReads(es: seq<MemberEntry>, rs: seq<MemberRead>): BranchScan
    requires |rs| == |es|
  {
    if rs == [] then Ok([], 0)
    else match ScanReads(es[..|es| - 1], rs[..|rs| - 1])
      case Fail(who, why) => Fail(who, why)
      case Ok(ms, n) =>
        match rs[|rs| - 1]
        case Skipped => Ok(ms, n)
        case Read(m, k) => Ok(ms + [m], n + k)
        case Fatal(why) => Fail(es[|es| - 1].name, why)
  }

  function ScanBranch(es: seq<MemberEntry>, branch: string, load: Loader): BranchScan {
    ScanReads(es, Reads(es, branch, load))
  }

  lemma {:induction false} ScanReadsOkIff(es: seq<MemberEntry>, rs: seq<MemberRead>)
    requires |rs| == |es|
    ensures ScanReads(es, rs).Ok? <==> forall j :: 0 <= j < |rs| ==> !rs[j].Fatal?
  {
    if rs != [] {
      ScanReadsOkIff(es[..|es| - 1], rs[..|rs| - 1]);
    }
  }

  /** The member loop gets through a branch exactly when none of its entries is fatal. */
  lemma ScanBranchOkIff(es: seq<MemberEntry>, branch: string, load: Loader)
    ensures ScanBranch(es, branch, load).Ok? <==> forall j :: 0 <= j < |es| ==> !ReadMember(es[j], branch, load).Fatal?
  {
    ScanReadsOkIff(es, Reads(es, branch, load));
  }

  lemma {:induction false} ScanReadsTagged(es: seq<MemberEntry>, rs: seq<MemberRead>, branch: string)
    requires |rs| == |es|
    requires forall j :: 0 <= j < |rs| ==> rs[j].Read? ==> rs[j].member.branch == branch
    ensures var s := ScanReads(es, rs);
      s.Ok? ==> forall k :: 0 <= k < |s.members| ==> s.members[k].branch == branch
  {
    if rs != [] {
      ScanReadsTagged(es[..|es| - 1], rs[..|rs| - 1], branch);
    }
  }

  /** Every record of a branch carries the branch's name. */
  lemma ScanBranchTagged(es: seq<MemberEntry>, branch: string, load: Loader)
    ensures var s := ScanBranch(es, branch, load);
      s.Ok? ==> forall k :: 0 <= k < |s.members| ==> s.members[k].branch == branch
  {
    ScanReadsTagged(es, Reads(es, branch, load), branch);
  }

  /** Once the member loop has failed, the later entries do not matter. */
  lemma {:induction false} ScanReadsFailSticks(es: seq<MemberEntry>, rs: seq<MemberRead>, j: nat)
    requires |rs| == |es| && j <= |rs| && ScanReads(es[..j], rs[..j]).Fail?
    ensures ScanReads(es, rs) == ScanReads(es[..j], rs[..j])
    decreases |rs| - j
  {
    if j < |rs| {
      assert es[..j + 1][..j] == es[..j] && rs[..j + 1][..j] == rs[..j];
      ScanReadsFailSticks(es, rs, j + 1);
    } else {
      assert es[..j] == es && rs[..j] == rs;
    }
  }

  /** One more member entry read by the loop. */
  lemma ScanStep(es: seq<MemberEntry>, j: nat, branch: string, load: Loader)
    requires j < |es|
    ensures Reads(es[..j + 1], branch, load) == Reads(es[..j], branch, load) + [ReadMember(es[j], branch, load)]
    ensures ScanBranch(es[..j + 1], branch, load)
      == match ScanBranch(es[..j], branch, load)
         case Fail(who, why) => Fail(who, why)
         case Ok(ms, n) =>
           match ReadMember(es[j], branch, load)
           case Skipped => Ok(ms, n)
           case Read(m, k) => Ok(ms + [m], n + k)
           case Fatal(why) => Fail(es[j].name, why)
  {
    assert es[..j + 1][..j] == es[..j];
    var rs := Reads(es[..j + 1], branch, load);
    assert rs[..j] == Reads(es[..j], branch, load);
  }

  // ---------------------------------------------------------------------
  // Branches (lines 51-104)
  // ---------------------------------------------------------------------

  /** The members of a branch: none without a `members` directory. */
  function BranchMembers(b: BranchEntry, load: Loader): BranchScan {
    match b.members
    case None => Ok([], 0)
    case Some(es) => ScanBranch(es, b.name, load)
  }

  /** What one entry of `families/` contributes. */
  datatype BranchRead =
    | NotABranch
    | BranchOk(data: BranchData, interviews: nat)
    | BranchAbort(branch: string, member: string, reason: AbortReason)

  function ReadBranch(b: BranchEntry, load: Loader): (r: BranchRead)
    ensures r.NotABranch? <==> !IsBranchDir(b)
    ensures r.BranchOk? ==> r.data.name == b.name && r.data.path == b.name
    ensures r.BranchAbort? ==> r.branch == b.name
  {
    if !IsBranchDir(b) then NotABranch
    else match BranchMembers(b, load)
      case Fail(who, why) => BranchAbort(b.name, who, why)
      case Ok(ms, n) => BranchOk(BranchData(b.name, DisplayName(b.name), b.name, ms, Description(b.readme, load)), n)
  }

  /** The records of a branch carry its name, and it aborts exactly when it is not safe. */
  lemma ReadBranchSpec(b: BranchEntry, load: Loader)
    ensures var r := ReadBranch(b, load);
      && (r.BranchOk? ==> forall k :: 0 <= k < |r.data.members| ==> r.data.members[k].branch == b.name)
      && (r.BranchAbort? <==> !SafeBranch(b, load))
  {
    if b.members.Some? {
      ScanBranchTagged(b.members.value, b.name, load);
      ScanBranchOkIff(b.members.value, b.name, load);
    }
  }

  function BranchReads(entries: seq<BranchEntry>, load: Loader): (r: seq<BranchRead>)
    ensures |r| == |entries| && forall i :: 0 <= i < |entries| ==> r[i] == ReadBranch(entries[i], load)
  {
    if entries == [] then [] else BranchReads(entries[..|entries| - 1], load) + [ReadBranch(entries[|entries| - 1], load)]
  }

  /** What one reading adds to the data. */
  function AddBranch(d: Site, r: BranchRead): Collection {
    match r
    case NotABranch => Collected(d)
    case BranchAbort(b, who, why) => Aborted(b, who, why)
    case BranchOk(bd, n) =>
      Collected(Site(d.branches + [bd], d.members + bd.members,
        SiteStats(d.stats.totalMembers + |bd.members|, d.stats.totalInterviews + n, d.stats.totalBranches + 1)))
  }

  /** The loop over the branch directories, in listing order; an abort ends it. */
  function CollectReads(rs: seq<BranchRead>): Collection {
    if rs == [] then Collected(EmptySite)
    else match CollectReads(rs[..|rs| - 1])
      case Aborted(b, m, why) => Aborted(b, m, why)
      case Collected(d) => AddBranch(d, rs[|rs| - 1])
  }

  function CollectFrom(entries: seq<BranchEntry>, load: Loader): Collection {
    CollectReads(BranchReads(entries, load))
  }

  /** One more reading: an abort stays, otherwise the reading is added. */
  lemma CollectStep(rs: seq<BranchRead>, i: nat)
    requires i < |rs|
    ensures CollectReads(rs[..i + 1])
      == match CollectReads(rs[..i])
         case Aborted(b, m, why) => Aborted(b, m, why)
         case Collected(d) => AddBranch(d, rs[i])
  {
    assert rs[..i + 1][..i] == rs[..i];
  }

  /** `collect_family_data`: empty data when `families/` does not exist. */
  function CollectFamilyDataOf(families: Families, load: Loader): (r: Collection)
    ensures families.None? ==> r == Collected(EmptySite)
  {
    match families
    case None => Collected(EmptySite)
    case Some(entries) => CollectFrom(entries, load)
  }

  /** The members of all branches, one branch after the other. */
  function Flatten(bs: seq<BranchData>): seq<SiteMember> {
    if bs == [] then [] else Flatten(bs[..|bs| - 1]) + bs[|bs| - 1].members
  }

  /** `Σ len(branch.members)`. */
  function SumBranchSizes(bs: seq<BranchData>): nat {
    if bs == [] then 0 else SumBranchSizes(bs[..|bs| - 1]) + |bs[|bs| - 1].members|
  }

  lemma {:induction false} FlattenLength(bs: seq<BranchData>)
    ensures |Flatten(bs)| == SumBranchSizes(bs)
  {
    if bs != [] {
      FlattenLength(bs[..|bs| - 1]);
    }
  }

  /** Every record in a branch carries that branch's name. */
  ghost predicate Tagged(bd: BranchData) {
    forall j :: 0 <= j < |bd.members| ==> bd.members[j].branch == bd.name
  }

  /**
    The invariant of the data: the flat list is the branch lists one after
    the other, each record is tagged with its own branch, and the counters
    count records and branches.
   */
  ghost predicate Coherent(d: Site) {
    && d.members == Flatten(d.branches)
    && d.stats.totalMembers == |d.members|
    && d.stats.totalBranches == |d.branches|
    && forall k :: 0 <= k < |d.branches| ==> Tagged(d.branches[k])
  }

  lemma AddBranchCoherent(d: Site, r: BranchRead)
    requires Coherent(d)
    requires r.BranchOk? ==> Tagged(r.data)
    ensures AddBranch(d, r).Collected? ==> Coherent(AddBranch(d, r).data)
  {
    if r.BranchOk? {
      var d' := AddBranch(d, r).data;
      assert d'.branches[..|d'.branches| - 1] == d.branches;
      assert forall k :: 0 <= k < |d.branches| ==> d'.branches[k] == d.branches[k];
    }
  }

  lemma {:induction false} CollectReadsCoherent(rs: seq<BranchRead>)
    requires forall i :: 0 <= i < |rs| ==> rs[i].BranchOk? ==> Tagged(rs[i].data)
    ensures CollectReads(rs).Collected? ==> Coherent(CollectReads(rs).data)
  {
    if rs != [] {
      CollectReadsCoherent(rs[..|rs| - 1]);
      match CollectReads(rs[..|rs| - 1]) {
        case Aborted(_, _, _) =>
        case Collected(d) => AddBranchCoherent(d, rs[|rs| - 1]);
      }
    }
  }

  /** `total_members == len(members) == Σ len(branch.members)`; `total_branches == len(branches)`. */
  lemma CollectedCounts(families: Families, load: Loader)
    requires CollectFamilyDataOf(families, load).Collected?
    ensures var d := CollectFamilyDataOf(families, load).data;
      && d.stats.totalMembers == |d.members| == SumBranchSizes(d.branches)
      && d.stats.totalBranches == |d.branches|
      && d.members == Flatten(d.branches)
      && forall k :: 0 <= k < |d.branches| ==> Tagged(d.branches[k])
  {
    if families.Some? {
      var rs := BranchReads(families.value, load);
      forall i | 0 <= i < |rs| ensures rs[i].BranchOk? ==> Tagged(rs[i].data) {
        ReadBranchSpec(families.value[i], load);
      }
      CollectReadsCoherent(rs);
    }
    FlattenLength(CollectFamilyDataOf(families, load).data.branches);
  }

  /** The names of the non-hidden directories, in listing order. */
  function DirNames(entries: seq<BranchEntry>): seq<string> {
    if entries == [] then []
    else
      var b := entries[|entries| - 1];
      DirNames(entries[..|entries| - 1]) + (if IsBranchDir(b) then [b.name] else [])
  }

  function BranchNames(bs: seq<BranchData>): (r: seq<string>)
    ensures |r| == |bs| && forall k :: 0 <= k < |bs| ==> r[k] == bs[k].name
  {
    if bs == [] then [] else BranchNames(bs[..|bs| - 1]) + [bs[|bs| - 1].name]
  }

  lemma {:induction false} CollectReadsNames(entries: seq<BranchEntry>, rs: seq<BranchRead>)
    requires |rs| == |entries|
    requires forall i :: 0 <= i < |rs| ==> (rs[i].NotABranch? <==> !IsBranchDir(entries[i]))
    requires forall i :: 0 <= i < |rs| ==> rs[i].BranchOk? ==> rs[i].data.name == entries[i].name
    ensures CollectReads(rs).Collected? ==> BranchNames(CollectReads(rs).data.branches) == DirNames(entries)
  {
    if rs != [] {
      CollectReadsNames(entries[..|entries| - 1], rs[..|rs| - 1]);
      match CollectReads(rs[..|rs| - 1]) {
        case Aborted(_, _, _) =>
        case Collected(d) =>
          if rs[|rs| - 1].BranchOk? {
            var bs := AddBranch(d, rs[|rs| - 1]).data.branches;
            assert bs[..|bs| - 1] == d.branches;
          }
      }
    }
  }

  /**
    Every non-hidden directory becomes a branch, in listing order, whether
    or not it has a `members` directory; nothing else does.
   */
  lemma BranchesAreDirectories(entries: seq<BranchEntry>, load: Loader)
    ensures CollectFrom(entries, load).Collected? ==> BranchNames(CollectFrom(entries, load).data.branches) == DirNames(entries)
  {
    CollectReadsNames(entries, BranchReads(entries, load));
  }

  /** A branch directory none of whose member entries is fatal. */
  predicate SafeBranch(b: BranchEntry, load: Loader) {
    IsBranchDir(b) && b.members.Some? ==>
      forall j :: 0 <= j < |b.members.value| ==> !ReadMember(b.members.value[j], b.name, load).Fatal?
  }

  lemma {:induction false} CollectReadsIff(rs: seq<BranchRead>)
    ensures CollectReads(rs).Collected? <==> forall i :: 0 <= i < |rs| ==> !rs[i].BranchAbort?
  {
    if rs != [] {
      CollectReadsIff(rs[..|rs| - 1]);
    }
  }

  /** The collection is aborted exactly when some branch directory has a fatal member entry. */
  lemma CollectedIffSafe(entries: seq<BranchEntry>, load: Loader)
    ensures CollectFrom(entries, load).Collected? <==> forall i :: 0 <= i < |entries| ==> SafeBranch(entries[i], load)
  {
    var rs := BranchReads(entries, load);
    CollectReadsIff(rs);
    forall i | 0 <= i < |entries| ensures rs[i].BranchAbort? <==> !SafeBranch(entries[i], load) {
      ReadBranchSpec(entries[i], load);
    }
  }

  /** Once the branch loop has aborted, the later branches do not matter. */
  lemma {:induction false} CollectAbortSticks(rs: seq<BranchRead>, i: nat)
    requires i <= |rs| && CollectReads(rs[..i]).Aborted?
    ensures CollectReads(rs) == CollectReads(rs[..i])
    decreases |rs| - i
  {
    if i < |rs| {
      assert rs[..i + 1][..i] == rs[..i];
      CollectAbortSticks(rs, i + 1);
    } else {
      assert rs[..i] == rs;
    }
  }

  // ---------------------------------------------------------------------
  // The loops as the source writes them
  // ---------------------------------------------------------------------

  /**
    The member loop of one branch: it appends to the branch list and to the
    flat list and bumps the counters as it goes, and stops at the first
    fatal entry.
   */
  method ScanBranchMembers(d0: Site, es: seq<MemberEntry>, branch: string, load: Loader)
    returns (d: Site, branchMembers: seq<SiteMember>, failure: Option<(string, AbortReason)>)
    ensures match ScanBranch(es, branch, load)
      case Fail(who, why) => failure == Some((who, why))
      case Ok(ms, n) =>
        && failure.None? && branchMembers == ms
        && d == Site(d0.branches, d0.members + ms,
                     SiteStats(d0.stats.totalMembers + |ms|, d0.stats.totalInterviews + n, d0.stats.totalBranches))
  {
    d, branchMembers, failure := d0, [], None;
    ghost var interviews: nat := 0;
    var j := 0;
    while j < |es|
      invariant 0 <= j <= |es|
      invariant ScanBranch(es[..j], branch, load) == Ok(branchMembers, interviews)
      invariant d == Site(d0.branches, d0.members + branchMembers,
                          SiteStats(d0.stats.totalMembers + |branchMembers|, d0.stats.totalInterviews + interviews,
                                    d0.stats.totalBranches))
    {
      var e := es[j];
      var read := ReadMember(e, branch, load);
      ScanStep(es, j, branch, load);
      j := j + 1;
      if read.Fatal? {
        FailureIsFinal(es, j, branch, load);
        return d, branchMembers, Some((e.name, read.reason));
      }
      if read.Read? {
        Assoc(d0.members, branchMembers, [read.member]);
        branchMembers := branchMembers + [read.member];
        d := d.(members := d.members + [read.member]);
        d := d.(stats := d.stats.(totalMembers := d.stats.totalMembers + 1));
        d := d.(stats := d.stats.(totalInterviews := d.stats.totalInterviews + read.interviews));
        interviews := interviews + read.interviews;
      }
    }
    assert es[..j] == es;
  }

  /** A failure of the member loop at entry `j - 1` is the loop's result. */
  lemma FailureIsFinal(es: seq<MemberEntry>, j: nat, branch: string, load: Loader)
    requires 0 < j <= |es| && ScanBranch(es[..j], branch, load).Fail?
    ensures ScanBranch(es, branch, load) == ScanBranch(es[..j], branch, load)
  {
    var rs := Reads(es, branch, load);
    assert rs[..j] == Reads(es[..j], branch, load);
    ScanReadsFailSticks(es, rs, j);
  }

  /** `collect_family_data` with its two nested loops. */
  method CollectFamilyData(families: Families, load: Loader) returns (r: Collection)
    ensures r == CollectFamilyDataOf(families, load)
  {
    var data := EmptySite;
    if families.None? {
      return Collected(data);
    }
    var entries := families.value;
    ghost var rs := BranchReads(entries, load);
    var i := 0;
    while i < |entries|
      invariant 0 <= i <= |entries|
      invariant CollectReads(rs[..i]) == Collected(data)
    {
      var b := entries[i];
      assert rs[i] == ReadBranch(b, load);
      CollectStep(rs, i);
      i := i + 1;
      if !b.isDir || (|b.name| > 0 && b.name[0] == '.') {
        continue;
      }
      var description := Description(b.readme, load);
      var branchMembers: seq<SiteMember> := [];
      if b.members.Some? {
        var failure;
        data, branchMembers, failure := ScanBranchMembers(data, b.members.value, b.name, load);
        if failure.Some? {
          r := Aborted(b.name, failure.value.0, failure.value.1);
          CollectAbortSticks(rs, i);
          return;
        }
      }
      var bd := BranchData(b.name, DisplayName(b.name), b.name, branchMembers, description);
      data := data.(branches := data.branches + [bd]);
      data := data.(stats := data.stats.(totalBranches := data.stats.totalBranches + 1));
    }
    assert rs[..i] == rs;
    r := Collected(data);
  }
}
