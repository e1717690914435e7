/**
  `collect_branch_metadata` (generate_metadata.py): one pass over a branch's
  `members` directory that counts members, interviews and media, records
  birth years and gathers relationship edges. A member whose processing
  raises is reported and skipped, but whatever the loop body had already
  counted for it stays counted: nothing is rolled back.
 */
module BranchMetadata {
  import opened Wrappers
  import opened PyStr
  import opened Yaml
  import opened Frontmatter
  import opened Snapshot

  /** The `member_data` dict (lines 86-97). */
  datatype MemberData = MemberData(
    slug: string,
    name: Value,
    birthDate: Value,
    birthPlace: Value,
    currentResidence: Value,
    relationships: Value,
    interviews: Value,
    hasPhotos: bool,
    hasVideos: bool,
    majorEvents: Value)

  /** One relationship edge `{from, to, type}` (lines 104-108). */
  datatype Edge = Edge(from: string, to: Value, relType: Value)

  /** `birth_year_range` (lines 116-120). */
  datatype YearRange = YearRange(earliest: int, latest: int, span: int)

  /** The `statistics` dict. */
  datatype Statistics = Statistics(
    totalMembers: nat,
    totalInterviews: nat,
    membersWithPhotos: nat,
    membersWithVideos: nat,
    birthYearRange: Option<YearRange>)

  /** The dict `collect_branch_metadata` returns. */
  datatype BranchMeta = BranchMeta(
    branchName: string,
    members: seq<MemberData>,
    statistics: Statistics,
    relationships: seq<Edge>)

  /** The dict and the warnings printed while building it. */
  datatype Collected = Collected(meta: BranchMeta, warnings: seq<string>)

  /**
    The state the member loop updates: the fields of `metadata`, the local
    `birth_years`, and the member names a warning was printed for.
   */
  datatype Tally = Tally(
    members: seq<MemberData>,
    totalMembers: nat,
    totalInterviews: nat,
    withPhotos: nat,
    withVideos: nat,
    birthYears: seq<int>,
    edges: seq<Edge>,
    warnings: seq<string>)

  const EmptyTally: Tally := Tally([], 0, 0, 0, 0, [], [], [])

  const ZeroStatistics: Statistics := Statistics(0, 0, 0, 0, None)

  // ---------------------------------------------------------------------
  // Birth years (lines 64-70)
  // ---------------------------------------------------------------------

  /**
    The year recorded for a `birth_date` value: the value must be truthy
    and the part of `str(value)` before the first `-` must be an integer.
   */
  function BirthYear(v: Value): Option<int> {
    if !Truthy(v) then None
    else match StrOf(v)
      case None => None
      case Some(s) => ParseInt(Before(s, '-'))
  }

  /** A recorded year comes from a truthy string, integer or date, and is never negative. */
  lemma BirthYearSource(v: Value)
    ensures BirthYear(v).Some? ==> Truthy(v) && (v.Str? || v.Int? || v.Date?) && BirthYear(v).value >= 0
  {
  }

  /** `"1950"` and `"1950-04-02"` both give 1950. */
  lemma BirthYearOfText(year: string, rest: string)
    requires IsDigits(year)
    ensures BirthYear(Str(year)) == Some(DigitsValue(year))
    ensures BirthYear(Str(year + "-" + rest)) == Some(DigitsValue(year))
  {
    DigitsUndashed(year);
    BeforeAbsent(year, '-');
    BeforeJoined(year, '-', rest);
  }

  /** Text that starts with `-` has an empty first segment, so no year is recorded. */
  lemma LeadingDashGivesNoYear(s: string)
    requires |s| > 0 && s[0] == '-'
    ensures BirthYear(Str(s)) == None
  {
  }

  /** A positive integer is its own year; zero is falsy and a negative one prints with a leading `-`. */
  lemma BirthYearOfInt(i: int)
    ensures BirthYear(Int(i)) == if i > 0 then Some(i) else None
  {
    if i > 0 {
      var s := NatToDecimal(i);
      ParseNatToDecimal(i);
      DigitsUndashed(s);
      BeforeAbsent(s, '-');
    }
  }

  /** A YAML date prints as `YYYY-MM-DD`, so its year is recorded. */
  lemma BirthYearOfDate(y: nat, m: nat, d: nat)
    ensures BirthYear(Date(y, m, d)) == Some(y)
  {
    var padded := ZeroPad(NatToDecimal(y), 4);
    var rest := ZeroPad(NatToDecimal(m), 2) + "-" + ZeroPad(NatToDecimal(d), 2);
    assert StrOf(Date(y, m, d)) == Some(padded + ['-'] + rest) by {
      DateTextParts(padded, ZeroPad(NatToDecimal(m), 2), ZeroPad(NatToDecimal(d), 2));
    }
    assert ParseInt(padded) == Some(y) by {
      ParseZeroPadded(NatToDecimal(y), 4);
      ParseNatToDecimal(y);
    }
    assert Before(padded + ['-'] + rest, '-') == padded by {
      DigitsUndashed(padded);
      BeforeJoined(padded, '-', rest);
    }
  }


  lemma DateTextParts(yyyy: string, mm: string, dd: string)
    ensures yyyy + "-" + mm + "-" + dd == yyyy + ['-'] + (mm + "-" + dd)
  {
  }

  lemma DigitsUndashed(s: string)
    requires IsDigits(s)
    ensures '-' !in s
  {
    forall k | 0 <= k < |s| ensures s[k] != '-' { assert IsDigit(s[k]); }
  }


  // ---------------------------------------------------------------------
  // Birth-year range (lines 114-120)
  // ---------------------------------------------------------------------

  function Min(xs: seq<int>): (m: int)
    requires |xs| > 0
    ensures m in xs && forall x :: x in xs ==> m <= x
  {
    if |xs| == 1 then xs[0]
    else
      var r := Min(xs[1..]);
      assert forall x :: x in xs ==> x == xs[0] || x in xs[1..];
      if xs[0] <= r then xs[0] else r
  }

  function Max(xs: seq<int>): (m: int)
    requires |xs| > 0
    ensures m in xs && forall x :: x in xs ==> x <= m
  {
    if |xs| == 1 then xs[0]
    else
      var r := Max(xs[1..]);
      assert forall x :: x in xs ==> x == xs[0] || x in xs[1..];
      if xs[0] >= r then xs[0] else r
  }

  /**
    The range stays `None` exactly when no year was recorded; otherwise it
    spans the smallest and the largest recorded year.
   */
  function YearRangeOf(years: seq<int>): (r: Option<YearRange>)
    ensures r.None? <==> years == []
    ensures r.Some? ==> r.value.earliest in years && r.value.latest in years
    ensures r.Some? ==> forall y :: y in years ==> r.value.earliest <= y <= r.value.latest
    ensures r.Some? ==> r.value.span == r.value.latest - r.value.earliest >= 0
  {
    if years == [] then None
    else Some(YearRange(Min(years), Max(years), Max(years) - Min(years)))
  }

  // ---------------------------------------------------------------------
  // Relationship edges (lines 103-108)
  // ---------------------------------------------------------------------

  /** The edge for one relationship mapping: missing keys become `''`. */
  function EdgeOf(slug: string, rel: map<string, Value>): Edge {
    Edge(slug, Get(rel, "person", Str("")), Get(rel, "type", Str("")))
  }

  /**
    The loop over a list of relationships: one edge per item, in order, up
    to the first item that is not a mapping, where `rel.get` raises.
   */
  function ListEdges(slug: string, items: seq<Value>): (es: seq<Edge>)
    ensures |es| <= |items|
    ensures forall i :: 0 <= i < |es| ==> items[i].Map? && es[i] == EdgeOf(slug, items[i].entries)
    ensures |es| < |items| ==> !items[|es|].Map?
  {
    if items == [] || !items[0].Map? then []
    else [EdgeOf(slug, items[0].entries)] + ListEdges(slug, items[1..])
  }

  /** What the relationship loop appends, and whether it ran to its end without raising. */
  datatype EdgeScan = EdgeScan(edges: seq<Edge>, completed: bool)

  function RelationshipEdges(slug: string, rels: Value): EdgeScan {
    match rels
    case List(items) =>
      var es := ListEdges(slug, items);
      EdgeScan(es, |es| == |items|)
    // Iterating a string or a mapping yields strings, and a string has no `get`.
    case Str(s) => EdgeScan([], |s| == 0)
    case Map(m) => EdgeScan([], |m| == 0)
    // null, numbers, booleans and dates are not iterable.
    case _ => EdgeScan([], false)
  }

  /** A list of relationship mappings yields exactly one edge per relationship, in order. */
  lemma EdgesForMappings(slug: string, items: seq<Value>)
    requires forall i :: 0 <= i < |items| ==> items[i].Map?
    ensures RelationshipEdges(slug, List(items)).completed
    ensures var es := RelationshipEdges(slug, List(items)).edges;
      && |es| == |items|
      && forall i :: 0 <= i < |items| ==> es[i] == Edge(slug, Get(items[i].entries, "person", Str("")), Get(items[i].entries, "type", Str("")))
  {
  }

  // ---------------------------------------------------------------------
  // The member loop (lines 51-112)
  // ---------------------------------------------------------------------

  /** The member fields as lines 86-97 read them from the metadata mapping. */
  function MemberOf(slug: string, m: map<string, Value>, hasPhotos: bool, hasVideos: bool): MemberData {
    MemberData(
      slug,
      Get(m, "name", Str(slug)),
      Get(m, "birth_date", Str("")),
      Get(m, "birth_place", Str("")),
      Get(m, "current_residence", Str("")),
      Get(m, "relationships", List([])),
      Get(m, "interviews", List([])),
      hasPhotos,
      hasVideos,
      Get(m, "major_events", List([])))
  }

  /** The metadata of an entry the loop reads, `None` for one it skips (lines 52-57). */
  function MetaOf(e: MemberEntry, load: Loader): Option<Value> {
    if e.isDir && e.profile.Some? then Some(ParseFrontmatter(e.profile.value, load).meta) else None
  }

  /** The metadata is a mapping, so `frontmatter.get` (line 64) does not raise. */
  predicate Counted(fm: Value) {
    fm.Map?
  }

  /** The member also gets past `len(interviews)` (line 83), so it is appended (line 99). */
  predicate Appended(fm: Value) {
    fm.Map? && PyLen(Get(fm.entries, "interviews", List([]))).Some?
  }

  /**
    The body of the `try` for a member whose metadata is `fm`. The order of
    the updates is the source's: the birth year and the media counters come
    before `len(interviews)`, which may raise, and the member is appended
    before the relationship loop, which may raise too. An exception adds a
    warning and keeps every update made before it.
   */
  function Visit(t: Tally, e: MemberEntry, fm: Value): Tally {
    if !fm.Map? then t.(warnings := t.warnings + [e.name])
    else AppendMember(CountBirthAndMedia(t, e, fm.entries), e, fm.entries)
  }

  /** Lines 64-79: the birth year, when one can be read, and the media counters. */
  function CountBirthAndMedia(t: Tally, e: MemberEntry, m: map<string, Value>): Tally {
    var year := BirthYear(Get(m, "birth_date", Str("")));
    t.(
      birthYears := if year.Some? then t.birthYears + [year.value] else t.birthYears,
      withPhotos := t.withPhotos + (if e.photosNonEmpty then 1 else 0),
      withVideos := t.withVideos + (if e.videosNonEmpty then 1 else 0))
  }

  /** Lines 82-108: `len(interviews)`, the append, and the relationship loop. */
  function AppendMember(t: Tally, e: MemberEntry, m: map<string, Value>): Tally {
    match PyLen(Get(m, "interviews", List([])))
    case None => t.(warnings := t.warnings + [e.name])
    case Some(n) =>
      var rels := RelationshipEdges(e.name, Get(m, "relationships", List([])));
      t.(
        members := t.members + [MemberOf(e.name, m, e.photosNonEmpty, e.videosNonEmpty)],
        totalMembers := t.totalMembers + 1,
        totalInterviews := t.totalInterviews + n,
        edges := t.edges + rels.edges,
        warnings := if rels.completed then t.warnings else t.warnings + [e.name])
  }

  /** One iteration of the loop: entries that are not directories with a `profile.md` are skipped. */
  function Step(t: Tally, e: MemberEntry, load: Loader): Tally {
    match MetaOf(e, load)
    case None => t
    case Some(fm) => Visit(t, e, fm)
  }

  /** The loop over the listing, entry by entry from the first. */
  function ScanMembers(es: seq<MemberEntry>, load: Loader): Tally {
    if es == [] then EmptyTally else Step(ScanMembers(es[..|es| - 1], load), es[|es| - 1], load)
  }

  /** What the loop keeps true: one increment per append, and every edge starts at an appended member. */
  ghost predicate Consistent(t: Tally) {
    t.totalMembers == |t.members| && EdgesFromMembers(t.members, t.edges)
  }

  /** The members' slugs, in order. */
  function Slugs(members: seq<MemberData>): (r: seq<string>)
    ensures |r| == |members| && forall i :: 0 <= i < |members| ==> r[i] == members[i].slug
  {
    if members == [] then [] else Slugs(members[..|members| - 1]) + [members[|members| - 1].slug]
  }

  /** Every edge starts at one of the members. */
  ghost predicate EdgesFromMembers(members: seq<MemberData>, edges: seq<Edge>) {
    forall i :: 0 <= i < |edges| ==> edges[i].from in Slugs(members)
  }

  /** Every edge of one member's relationship loop starts at that member. */
  lemma EdgesFromSlug(slug: string, rels: Value)
    ensures forall i :: 0 <= i < |RelationshipEdges(slug, rels).edges| ==> RelationshipEdges(slug, rels).edges[i].from == slug
  {
  }

  /** The birth year lines 64-68 record for a mapping: none, or the one read from `birth_date`. */
  function YearOf(m: map<string, Value>): (ys: seq<int>)
    ensures |ys| <= 1
    ensures ys != [] <==> BirthYear(Get(m, "birth_date", Str(""))).Some?
  {
    match BirthYear(Get(m, "birth_date", Str("")))
    case Some(y) => [y]
    case None => []
  }

  /** The interviews line 83 adds: `len(interviews)` when it succeeds, nothing when it raises. */
  function InterviewsAdded(fm: Value): nat {
    if Appended(fm) then PyLen(Get(fm.entries, "interviews", List([]))).value else 0
  }

  /**
    What one member does to the counters and lists: the birth year and the
    media counters move as soon as the metadata is a mapping, whatever
    happens later in the `try`; the member count, the interview total, the
    member list and the edges only when `len(interviews)` succeeds.
   */
  lemma VisitEffect(t: Tally, e: MemberEntry, fm: Value)
    ensures var t' := Visit(t, e, fm);
      && t'.birthYears == t.birthYears + (if Counted(fm) then YearOf(fm.entries) else [])
      && t'.totalInterviews == t.totalInterviews + InterviewsAdded(fm)
      && t'.withPhotos == t.withPhotos + (if Counted(fm) && e.photosNonEmpty then 1 else 0)
      && t'.withVideos == t.withVideos + (if Counted(fm) && e.videosNonEmpty then 1 else 0)
      && t'.totalMembers == t.totalMembers + (if Appended(fm) then 1 else 0)
      && (Appended(fm) ==>
            && t'.members == t.members + [MemberOf(e.name, fm.entries, e.photosNonEmpty, e.videosNonEmpty)]
            && t'.edges == t.edges + RelationshipEdges(e.name, Get(fm.entries, "relationships", List([]))).edges)
      && (!Appended(fm) ==> t'.members == t.members && t'.edges == t.edges)
  {
  }

  /** Appending a member together with edges that start at it keeps the tally consistent. */
  lemma AppendConsistent(t: Tally, t': Tally, md: MemberData, added: seq<Edge>)
    requires Consistent(t)
    requires t'.members == t.members + [md] && t'.totalMembers == t.totalMembers + 1
    requires t'.edges == t.edges + added
    requires forall i :: 0 <= i < |added| ==> added[i].from == md.slug
    ensures Consistent(t')
  {
    assert t'.members[..|t'.members| - 1] == t.members;
    assert Slugs(t'.members) == Slugs(t.members) + [md.slug];
    forall i | 0 <= i < |t'.edges|
      ensures t'.edges[i].from in Slugs(t'.members)
    {
      if i < |t.edges| {
        assert t'.edges[i] == t.edges[i];
      } else {
        assert t'.edges[i] == added[i - |t.edges|];
      }
    }
  }

  lemma VisitConsistent(t: Tally, e: MemberEntry, fm: Value)
    requires Consistent(t)
    ensures Consistent(Visit(t, e, fm))
  {
    VisitEffect(t, e, fm);
    if Appended(fm) {
      var rels := Get(fm.entries, "relationships", List([]));
      EdgesFromSlug(e.name, rels);
      AppendConsistent(t, Visit(t, e, fm), MemberOf(e.name, fm.entries, e.photosNonEmpty, e.videosNonEmpty),
        RelationshipEdges(e.name, rels).edges);
    }
  }

  /** `total_members == len(members)`, and every edge comes from a collected member. */
  lemma {:induction false} ScanConsistent(es: seq<MemberEntry>, load: Loader)
    ensures Consistent(ScanMembers(es, load))
  {
    if es != [] {
      var t := ScanMembers(es[..|es| - 1], load);
      ScanConsistent(es[..|es| - 1], load);
      match MetaOf(es[|es| - 1], load) {
        case None =>
        case Some(fm) => VisitConsistent(t, es[|es| - 1], fm);
      }
    }
  }

  /** The entry is read and its metadata is a mapping. */
  predicate ReachesCounters(e: MemberEntry, load: Loader) {
    MetaOf(e, load).Some? && Counted(MetaOf(e, load).value)
  }

  /** The entry is read and appended. */
  predicate IsAppended(e: MemberEntry, load: Loader) {
    MetaOf(e, load).Some? && Appended(MetaOf(e, load).value)
  }

  /** How many entries of `es` satisfy `p`. */
  function CountIf(es: seq<MemberEntry>, p: MemberEntry -> bool): nat {
    if es == [] then 0 else CountIf(es[..|es| - 1], p) + (if p(es[|es| - 1]) then 1 else 0)
  }

  /** The birth year an entry contributes: only an entry whose metadata reaches line 64 can add one. */
  function EntryYears(e: MemberEntry, load: Loader): seq<int> {
    if ReachesCounters(e, load) then YearOf(MetaOf(e, load).value.entries) else []
  }

  /** The interviews an entry contributes: only an appended entry adds any. */
  function EntryInterviews(e: MemberEntry, load: Loader): nat {
    match MetaOf(e, load)
    case None => 0
    case Some(fm) => InterviewsAdded(fm)
  }

  /** The entries' birth years, in listing order. */
  function YearsOf(es: seq<MemberEntry>, load: Loader): seq<int> {
    if es == [] then [] else YearsOf(es[..|es| - 1], load) + EntryYears(es[|es| - 1], load)
  }

  /** The interviews of the entries, summed. */
  function InterviewsOf(es: seq<MemberEntry>, load: Loader): nat {
    if es == [] then 0 else InterviewsOf(es[..|es| - 1], load) + EntryInterviews(es[|es| - 1], load)
  }

  /**
    What the counters count. Members and interviews come from the entries
    that get past `len(interviews)`; birth years and the media counters come
    from every entry that got as far as line 64, appended or not, because a
    later exception undoes nothing.
   */
  lemma {:induction false} ScanCounts(es: seq<MemberEntry>, load: Loader)
    ensures ScanMembers(es, load).birthYears == YearsOf(es, load)
    ensures ScanMembers(es, load).totalInterviews == InterviewsOf(es, load)
    ensures ScanMembers(es, load).totalMembers == CountIf(es, e => IsAppended(e, load))
    ensures ScanMembers(es, load).withPhotos == CountIf(es, e => ReachesCounters(e, load) && e.photosNonEmpty)
    ensures ScanMembers(es, load).withVideos == CountIf(es, e => ReachesCounters(e, load) && e.videosNonEmpty)
  {
    if es != [] {
      var t := ScanMembers(es[..|es| - 1], load);
      ScanCounts(es[..|es| - 1], load);
      match MetaOf(es[|es| - 1], load) {
        case None =>
        case Some(fm) => VisitEffect(t, es[|es| - 1], fm);
      }
    }
  }

  /** Directories without `profile.md`, and files, leave every counter and list unchanged. */
  lemma SkippedEntry(t: Tally, e: MemberEntry, load: Loader)
    requires !e.isDir || e.profile.None?
    ensures Step(t, e, load) == t
  {
  }

  /** The entries that are directories with a `profile.md`. */
  function Readable(es: seq<MemberEntry>): (r: seq<MemberEntry>)
    ensures forall i :: 0 <= i < |r| ==> r[i].isDir && r[i].profile.Some?
    ensures |r| <= |es|
  {
    if es == [] then []
    else
      var e := es[|es| - 1];
      Readable(es[..|es| - 1]) + (if e.isDir && e.profile.Some? then [e] else [])
  }

  /** Scanning a listing is scanning just its member directories with a profile: the rest is skipped silently. */
  lemma {:induction false} ScanIgnoresSkipped(es: seq<MemberEntry>, load: Loader)
    ensures ScanMembers(es, load) == ScanMembers(Readable(es), load)
  {
    if es != [] {
      var init := es[..|es| - 1];
      var e := es[|es| - 1];
      ScanIgnoresSkipped(init, load);
      if e.isDir && e.profile.Some? {
        var r := Readable(init) + [e];
        assert Readable(es) == r;
        assert r[..|r| - 1] == Readable(init) && r[|r| - 1] == e;
        assert ScanMembers(r, load) == Step(ScanMembers(Readable(init), load), e, load);
      } else {
        assert Readable(es) == Readable(init);
        SkippedEntry(ScanMembers(init, load), e, load);
      }
    }
  }

  /**
    A profile whose `interviews:` key holds null (a profile written by the
    add-member command holds only comments there) is reported and not
    appended, yet its birth year and media were already counted.
   */
  lemma NullInterviewsNoRollback(t: Tally, e: MemberEntry, fm: Value)
    requires fm.Map? && "interviews" in fm.entries && fm.entries["interviews"] == Null
    ensures var t' := Visit(t, e, fm);
      && t'.members == t.members && t'.totalMembers == t.totalMembers
      && t'.totalInterviews == t.totalInterviews && t'.edges == t.edges
      && t'.withPhotos == t.withPhotos + (if e.photosNonEmpty then 1 else 0)
      && t'.withVideos == t.withVideos + (if e.videosNonEmpty then 1 else 0)
      && t'.birthYears == t.birthYears + (match BirthYear(Get(fm.entries, "birth_date", Str(""))) case Some(y) => [y] case None => [])
      && t'.warnings == t.warnings + [e.name]
  {
  }

  /**
    A null `relationships:` raises only after the member was appended and
    counted: the member stays, with no edges, and a warning is printed.
   */
  lemma NullRelationshipsAfterAppend(t: Tally, e: MemberEntry, fm: Value)
    requires fm.Map? && "relationships" in fm.entries && fm.entries["relationships"] == Null
    requires PyLen(Get(fm.entries, "interviews", List([]))).Some?
    ensures var t' := Visit(t, e, fm);
      && |t'.members| == |t.members| + 1 && t'.members[|t.members|].slug == e.name
      && t'.totalMembers == t.totalMembers + 1
      && t'.edges == t.edges
      && t'.warnings == t.warnings + [e.name]
  {
  }

  // ---------------------------------------------------------------------
  // The whole function (lines 30-122)
  // ---------------------------------------------------------------------

  /**
    `collect_branch_metadata`: zeroed statistics when there is no `members`
    directory; otherwise the loop's tally, with the birth-year range taken
    over the recorded years.
   */
  function BranchMetadataOf(b: BranchEntry, load: Loader): (r: Collected)
    ensures r.meta.branchName == b.name
    ensures b.members.None? ==> r == Collected(BranchMeta(b.name, [], ZeroStatistics, []), [])
    ensures b.members.Some? ==>
      (r.meta.statistics.birthYearRange.None? <==> ScanMembers(b.members.value, load).birthYears == [])
  {
    match b.members
    case None => Collected(BranchMeta(b.name, [], ZeroStatistics, []), [])
    case Some(es) =>
      var t := ScanMembers(es, load);
      Collected(
        BranchMeta(b.name, t.members,
          Statistics(t.totalMembers, t.totalInterviews, t.withPhotos, t.withVideos, YearRangeOf(t.birthYears)),
          t.edges),
        t.warnings)
  }

  /** `total_members` is the length of `members`, and every relationship edge starts at a listed member. */
  lemma BranchMetadataConsistent(b: BranchEntry, load: Loader)
    ensures var r := BranchMetadataOf(b, load).meta;
      r.statistics.totalMembers == |r.members| && EdgesFromMembers(r.members, r.relationships)
  {
    if b.members.Some? {
      ScanConsistent(b.members.value, load);
    }
  }

  /** Every recorded year is non-negative: each is `int` of a string of digits. */
  lemma {:induction false} ScanYearsNonNegative(es: seq<MemberEntry>, load: Loader)
    ensures forall k :: 0 <= k < |ScanMembers(es, load).birthYears| ==> ScanMembers(es, load).birthYears[k] >= 0
  {
    if es != [] {
      ScanYearsNonNegative(es[..|es| - 1], load);
      var t := ScanMembers(es[..|es| - 1], load);
      match MetaOf(es[|es| - 1], load) {
        case None =>
        case Some(fm) =>
          if fm.Map? {
            var c := CountBirthAndMedia(t, es[|es| - 1], fm.entries);
            assert AppendMember(c, es[|es| - 1], fm.entries).birthYears == c.birthYears;
          }
      }
    }
  }

  /** So the earliest year of a branch is never negative. */
  lemma BranchYearsNonNegative(b: BranchEntry, load: Loader)
    ensures var r := BranchMetadataOf(b, load).meta.statistics.birthYearRange;
      r.Some? ==> 0 <= r.value.earliest <= r.value.latest
  {
    if b.members.Some? {
      ScanYearsNonNegative(b.members.value, load);
    }
  }

  /** The relationship loop of one member, appending to `edges`. */
  method AppendEdges(slug: string, rels: Value, edges0: seq<Edge>) returns (edges: seq<Edge>, completed: bool)
    ensures edges == edges0 + RelationshipEdges(slug, rels).edges
    ensures completed == RelationshipEdges(slug, rels).completed
  {
    edges := edges0;
    match rels {
      case List(items) =>
        var k := 0;
        completed := true;
        ghost var added: seq<Edge> := [];
        while k < |items|
          invariant 0 <= k <= |items|
          invariant edges == edges0 + added && |added| == k
          invariant forall j :: 0 <= j < k ==> items[j].Map? && added[j] == EdgeOf(slug, items[j].entries)
          invariant completed
        {
          if !items[k].Map? {
            completed := false;
            break;
          }
          edges := edges + [EdgeOf(slug, items[k].entries)];
          added := added + [EdgeOf(slug, items[k].entries)];
          k := k + 1;
        }
        assert completed <==> k == |items|;
        assert added == ListEdges(slug, items);
      case Str(s) => completed := |s| == 0;
      case Map(m) => completed := |m| == 0;
      case _ => completed := false;
    }
  }

  /** The `try` body of the member loop, updating the tally field by field. */
  method VisitMember(t0: Tally, e: MemberEntry, fm: Value) returns (t: Tally)
    ensures t == Visit(t0, e, fm)
  {
    if !fm.Map? {
      t := t0.(warnings := t0.warnings + [e.name]);
      return;
    }
    t := CountBirthAndMediaOf(t0, e, fm.entries);
    t := AppendMemberData(t, e, fm.entries);
  }

  /** Lines 64-79 of the `try` body: record the birth year, when one can be read, and count the media. */
  method CountBirthAndMediaOf(t0: Tally, e: MemberEntry, m: map<string, Value>) returns (t: Tally)
    ensures t == CountBirthAndMedia(t0, e, m)
  {
    t := t0;
    var year := BirthYear(Get(m, "birth_date", Str("")));
    if year.Some? {
      t := t.(birthYears := t.birthYears + [year.value]);
    }
    if e.photosNonEmpty {
      t := t.(withPhotos := t.withPhotos + 1);
    }
    if e.videosNonEmpty {
      t := t.(withVideos := t.withVideos + 1);
    }
  }


  /** Lines 82-108 of the `try` body: count the interviews, append the member, collect its edges. */
  method AppendMemberData(t0: Tally, e: MemberEntry, m: map<string, Value>) returns (t: Tally)
    ensures t == AppendMember(t0, e, m)
  {
    t := t0;
    var interviews := PyLen(Get(m, "interviews", List([])));
    if interviews.None? {
      t := t.(warnings := t.warnings + [e.name]);
      return;
    }
    t := t.(totalInterviews := t.totalInterviews + interviews.value);
    t := t.(members := t.members + [MemberOf(e.name, m, e.photosNonEmpty, e.videosNonEmpty)]);
    t := t.(totalMembers := t.totalMembers + 1);
    var edges, completed := AppendEdges(e.name, Get(m, "relationships", List([])), t.edges);
    t := t.(edges := edges);
    if !completed {
      t := t.(warnings := t.warnings + [e.name]);
    }
    assert t.edges == AppendMember(t0, e, m).edges;
    assert t.members == AppendMember(t0, e, m).members;
    assert t.warnings == AppendMember(t0, e, m).warnings;
  }

  /** `collect_branch_metadata`, as the loop it is. */
  method CollectBranchMetadata(b: BranchEntry, load: Loader) returns (meta: BranchMeta, warnings: seq<string>)
    ensures Collected(meta, warnings) == BranchMetadataOf(b, load)
  {
    if b.members.None? {
      return BranchMeta(b.name, [], ZeroStatistics, []), [];
    }
    var entries := b.members.value;
    var t := EmptyTally;
    var i := 0;
    while i < |entries|
      invariant 0 <= i <= |entries|
      invariant t == ScanMembers(entries[..i], load)
    {
      var e := entries[i];
      assert entries[..i + 1][..i] == entries[..i];
      i := i + 1;
      if !e.isDir || e.profile.None? {
        continue;
      }
      var fm := ParseFrontmatter(e.profile.value, load).meta;
      t := VisitMember(t, e, fm);
    }
    assert entries[..i] == entries;
    meta := BranchMeta(b.name, t.members,
      Statistics(t.totalMembers, t.totalInterviews, t.withPhotos, t.withVideos, YearRangeOf(t.birthYears)),
      t.edges);
    warnings := t.warnings;
  }
}
