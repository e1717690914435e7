/**
  `generate_metadata` (generate_metadata.py): pick the branches, collect
  each branch's metadata, add up the global statistics and hand the result
  to one of three outputs: a JSON file, a YAML file, or a terminal summary
  (the rows of `display_summary`).
 */
module MetadataCommand {
  import opened Wrappers
  import opened PyStr
  import opened Yaml
  import opened Snapshot
  import opened BranchMetadata

  /** `global_statistics`. */
  datatype GlobalStatistics = GlobalStatistics(
    totalBranches: nat,
    totalMembers: nat,
    totalInterviews: nat,
    membersWithMedia: nat)

  /** `all_metadata`, the document that is saved or summarised. */
  datatype AllMetadata = AllMetadata(
    generatedAt: string,
    branches: seq<BranchMeta>,
    globalStatistics: GlobalStatistics)

  /** One row of the "Branch Details" table. */
  datatype BranchRow = BranchRow(
    branch: string,
    members: string,
    interviews: string,
    photos: string,
    videos: string,
    birthYears: string)

  /** The two tables `display_summary` prints. */
  datatype SummaryTables = SummaryTables(globalRows: seq<(string, string)>, branchRows: seq<BranchRow>)

  /** How the command ends. */
  datatype Outcome =
    | NoFamiliesDirectory
    | BranchNotFound(branch: string)
    | Saved(file: string, doc: AllMetadata)
    | Displayed(doc: AllMetadata, tables: SummaryTables)
    | UnknownFormat(format: string)

  /** The outcome and the warnings the branch scans printed on the way. */
  datatype Report = Report(outcome: Outcome, warnings: seq<string>)

  const JsonFile: string := "family-metadata.json"
  const YamlFile: string := "family-metadata.yaml"

  // ---------------------------------------------------------------------
  // Choosing the branches (lines 151-159)
  // ---------------------------------------------------------------------

  /** The non-hidden directories of `families/`, in listing order. */
  function BranchDirs(entries: seq<BranchEntry>): (r: seq<BranchEntry>)
    ensures |r| <= |entries|
    ensures forall i :: 0 <= i < |r| ==> IsBranchDir(r[i])
  {
    if entries == [] then []
    else
      var b := entries[|entries| - 1];
      BranchDirs(entries[..|entries| - 1]) + (if IsBranchDir(b) then [b] else [])
  }

  /** An entry is processed without a filter exactly when it is a non-hidden directory. */
  lemma {:induction false} BranchDirsMembership(entries: seq<BranchEntry>, b: BranchEntry)
    ensures b in BranchDirs(entries) <==> b in entries && IsBranchDir(b)
  {
    if entries != [] {
      var init := entries[..|entries| - 1];
      BranchDirsMembership(init, b);
      assert entries == init + [entries[|entries| - 1]];
    }
  }

  /** The first entry of the listing with the given name. */
  function FindEntry(entries: seq<BranchEntry>, name: string): (r: Option<nat>)
    ensures r.Some? ==> r.value < |entries| && entries[r.value].name == name
    ensures r.Some? ==> forall k :: 0 <= k < r.value ==> entries[k].name != name
    ensures r.None? ==> forall k :: 0 <= k < |entries| ==> entries[k].name != name
  {
    if entries == [] then None
    else if entries[0].name == name then Some(0)
    else match FindEntry(entries[1..], name)
      case None => None
      case Some(k) => Some(k + 1)
  }

  /**
    The branches to process, `None` when the named one does not exist. An
    empty name is falsy and selects every branch. A named branch only has
    to exist: it may be hidden, or a file.
   */
  function SelectBranches(entries: seq<BranchEntry>, branch: Option<string>): (r: Option<seq<BranchEntry>>)
    ensures (branch.None? || branch.value == "") ==> r == Some(BranchDirs(entries))
    ensures branch.Some? && branch.value != "" ==>
      (r.None? <==> forall k :: 0 <= k < |entries| ==> entries[k].name != branch.value)
    ensures branch.Some? && branch.value != "" && r.Some? ==>
      |r.value| == 1 && r.value[0] in entries && r.value[0].name == branch.value
  {
    if branch.None? || branch.value == "" then Some(BranchDirs(entries))
    else match FindEntry(entries, branch.value)
      case None => None
      case Some(k) => Some([entries[k]])
  }

  /** A hidden directory is never processed by default, but is when it is named. */
  lemma HiddenBranchOnlyByName(b: BranchEntry)
    requires b.isDir && |b.name| > 0 && b.name[0] == '.'
    ensures SelectBranches([b], None) == Some([])
    ensures SelectBranches([b], Some(b.name)) == Some([b])
  {
    assert [b][..0] == [];
  }

  // ---------------------------------------------------------------------
  // Collecting and adding up (lines 161-174)
  // ---------------------------------------------------------------------

  /** `collect_branch_metadata` on each selected branch, in order. */
  function CollectAll(bs: seq<BranchEntry>, load: Loader): (r: seq<Collected>)
    ensures |r| == |bs|
  {
    if bs == [] then [] else CollectAll(bs[..|bs| - 1], load) + [BranchMetadataOf(bs[|bs| - 1], load)]
  }

  /** Entry `i` of the collected records is the `i`-th branch's. */
  lemma {:induction false} CollectAllAt(bs: seq<BranchEntry>, load: Loader)
    ensures forall i :: 0 <= i < |bs| ==> CollectAll(bs, load)[i] == BranchMetadataOf(bs[i], load)
  {
    if bs != [] {
      CollectAllAt(bs[..|bs| - 1], load);
    }
  }

  function Metas(cs: seq<Collected>): (r: seq<BranchMeta>)
    ensures |r| == |cs|
  {
    if cs == [] then [] else Metas(cs[..|cs| - 1]) + [cs[|cs| - 1].meta]
  }

  /** Entry `i` of the metadata list is that of the `i`-th record. */
  lemma {:induction false} MetasAt(cs: seq<Collected>)
    ensures forall i :: 0 <= i < |cs| ==> Metas(cs)[i] == cs[i].meta
  {
    if cs != [] {
      MetasAt(cs[..|cs| - 1]);
    }
  }

  function AllWarnings(cs: seq<Collected>): seq<string> {
    if cs == [] then [] else AllWarnings(cs[..|cs| - 1]) + cs[|cs| - 1].warnings
  }

  function SumMembers(ms: seq<BranchMeta>): nat {
    if ms == [] then 0 else SumMembers(ms[..|ms| - 1]) + ms[|ms| - 1].statistics.totalMembers
  }

  function SumInterviews(ms: seq<BranchMeta>): nat {
    if ms == [] then 0 else SumInterviews(ms[..|ms| - 1]) + ms[|ms| - 1].statistics.totalInterviews
  }

  /** Photos and videos are added together, so a member with both counts twice. */
  function SumMedia(ms: seq<BranchMeta>): nat {
    if ms == [] then 0
    else SumMedia(ms[..|ms| - 1]) + ms[|ms| - 1].statistics.membersWithPhotos + ms[|ms| - 1].statistics.membersWithVideos
  }

  /** The number of member records across the branches. */
  function CountRecords(ms: seq<BranchMeta>): nat {
    if ms == [] then 0 else CountRecords(ms[..|ms| - 1]) + |ms[|ms| - 1].members|
  }

  function GlobalOf(ms: seq<BranchMeta>): GlobalStatistics {
    GlobalStatistics(|ms|, SumMembers(ms), SumInterviews(ms), SumMedia(ms))
  }

  /** The global member count is the number of member records in the document, branch by branch. */
  lemma {:induction false} GlobalMembersAreRecords(bs: seq<BranchEntry>, load: Loader)
    ensures SumMembers(Metas(CollectAll(bs, load))) == CountRecords(Metas(CollectAll(bs, load)))
  {
    if bs != [] {
      var init := bs[..|bs| - 1];
      GlobalMembersAreRecords(init, load);
      BranchMetadataConsistent(bs[|bs| - 1], load);
      var ms := Metas(CollectAll(bs, load));
      assert ms[..|ms| - 1] == Metas(CollectAll(init, load));
    }
  }

  // ---------------------------------------------------------------------
  // The summary tables (lines 197-237)
  // ---------------------------------------------------------------------

  /** The "Birth Years" cell: `earliest-latest`, or `N/A` without a range. */
  function YearStr(r: Option<YearRange>): string {
    match r
    case None => "N/A"
    case Some(y) => IntToDecimal(y.earliest) + "-" + IntToDecimal(y.latest)
  }

  /** The cell reads `N/A` exactly when no birth year was recorded. */
  lemma YearStrNA(r: Option<YearRange>)
    ensures YearStr(r) == "N/A" <==> r.None?
  {
    if r.Some? {
      var s := YearStr(r);
      var a := IntToDecimal(r.value.earliest);
      assert s[|a|] == '-';
    }
  }

  /** For non-negative years the cell gives back both years: before and after its one `-`. */
  lemma YearStrRoundTrip(y: YearRange)
    requires 0 <= y.earliest <= y.latest
    ensures var s := YearStr(Some(y));
      var k := |Before(s, '-')|;
      && k < |s|
      && ParseInt(s[..k]) == Some(y.earliest)
      && ParseInt(s[k + 1..]) == Some(y.latest)
  {
    var a := NatToDecimal(y.earliest);
    var b := NatToDecimal(y.latest);
    var s := YearStr(Some(y));
    assert s == a + ['-'] + b;
    assert '-' !in a by {
      forall k | 0 <= k < |a| ensures a[k] != '-' { assert IsDigit(a[k]); }
    }
    BeforeJoined(a, '-', b);
    assert s[..|a|] == a && s[|a| + 1..] == b;
    ParseNatToDecimal(y.earliest);
    ParseNatToDecimal(y.latest);
  }

  function RowOf(m: BranchMeta): BranchRow {
    var st := m.statistics;
    BranchRow(m.branchName, NatToDecimal(st.totalMembers), NatToDecimal(st.totalInterviews),
      NatToDecimal(st.membersWithPhotos), NatToDecimal(st.membersWithVideos), YearStr(st.birthYearRange))
  }

  function GlobalRows(g: GlobalStatistics): seq<(string, string)> {
    [("Total Branches", NatToDecimal(g.totalBranches)),
     ("Total Members", NatToDecimal(g.totalMembers)),
     ("Total Interviews", NatToDecimal(g.totalInterviews)),
     ("Members with Media", NatToDecimal(g.membersWithMedia))]
  }

  /** One row per branch, in document order. */
  function BranchRows(ms: seq<BranchMeta>): (r: seq<BranchRow>)
    ensures |r| == |ms| && forall i :: 0 <= i < |ms| ==> r[i] == RowOf(ms[i])
  {
    if ms == [] then [] else BranchRows(ms[..|ms| - 1]) + [RowOf(ms[|ms| - 1])]
  }

  function SummaryOf(doc: AllMetadata): SummaryTables {
    SummaryTables(GlobalRows(doc.globalStatistics), BranchRows(doc.branches))
  }

  /** Every number in a branch row reads back as the statistic it shows. */
  lemma RowNumbersReadBack(m: BranchMeta)
    ensures var row := RowOf(m);
      && ParseInt(row.members) == Some(m.statistics.totalMembers)
      && ParseInt(row.interviews) == Some(m.statistics.totalInterviews)
      && ParseInt(row.photos) == Some(m.statistics.membersWithPhotos)
      && ParseInt(row.videos) == Some(m.statistics.membersWithVideos)
  {
    ParseNatToDecimal(m.statistics.totalMembers);
    ParseNatToDecimal(m.statistics.totalInterviews);
    ParseNatToDecimal(m.statistics.membersWithPhotos);
    ParseNatToDecimal(m.statistics.membersWithVideos);
  }

  /** `display_summary`'s loop over the branches. */
  method DisplaySummary(doc: AllMetadata) returns (tables: SummaryTables)
    ensures tables == SummaryOf(doc)
  {
    var rows: seq<BranchRow> := [];
    var i := 0;
    while i < |doc.branches|
      invariant 0 <= i <= |doc.branches|
      invariant rows == BranchRows(doc.branches[..i])
    {
      assert doc.branches[..i + 1][..i] == doc.branches[..i];
      rows := rows + [RowOf(doc.branches[i])];
      i := i + 1;
    }
    assert doc.branches[..i] == doc.branches;
    tables := SummaryTables(GlobalRows(doc.globalStatistics), rows);
  }

  // ---------------------------------------------------------------------
  // The command (lines 125-194)
  // ---------------------------------------------------------------------

  /** The outcome for a collected document and the requested format. */
  function Dispatch(format: string, doc: AllMetadata): Outcome {
    if format == "json" then Saved(JsonFile, doc)
    else if format == "yaml" then Saved(YamlFile, doc)
    else if format == "summary" then Displayed(doc, SummaryOf(doc))
    else UnknownFormat(format)
  }

  /**
    `generate_metadata`. The clock reading is the `timestamp` parameter.
    An unknown format is reported only after every branch was scanned.
   */
  function GenerateMetadataOf(families: Families, format: string, branch: Option<string>,
                              timestamp: string, load: Loader): Report
  {
    match families
    case None => Report(NoFamiliesDirectory, [])
    case Some(entries) =>
      match SelectBranches(entries, branch)
      case None => Report(BranchNotFound(branch.value), [])
      case Some(bs) =>
        var cs := CollectAll(bs, load);
        var ms := Metas(cs);
        Report(Dispatch(format, AllMetadata(timestamp, ms, GlobalOf(ms))), AllWarnings(cs))
  }

  /** The file written, if any. */
  function WrittenFile(o: Outcome): Option<string> {
    if o.Saved? then Some(o.file) else None
  }

  /**
    A file is written exactly when `families/` exists, the named branch (if
    any) exists and the format is `json` or `yaml`; the file name follows
    the format.
   */
  lemma WritesIffSaved(families: Families, format: string, branch: Option<string>, timestamp: string, load: Loader)
    ensures var w := WrittenFile(GenerateMetadataOf(families, format, branch, timestamp, load).outcome);
      && (w.Some? <==> families.Some? && SelectBranches(families.value, branch).Some? && (format == "json" || format == "yaml"))
      && (w.Some? ==> w.value == if format == "json" then JsonFile else YamlFile)
  {
    if families.Some? && SelectBranches(families.value, branch).Some? {
      var ms := Metas(CollectAll(SelectBranches(families.value, branch).value, load));
      DispatchSaved(format, AllMetadata(timestamp, ms, GlobalOf(ms)));
    }
  }

  /** Only the `json` and `yaml` formats save a file, each under its own name. */
  lemma DispatchSaved(format: string, doc: AllMetadata)
    ensures Dispatch(format, doc).Saved? <==> format == "json" || format == "yaml"
    ensures Dispatch(format, doc).Saved? ==> Dispatch(format, doc).file == if format == "json" then JsonFile else YamlFile
  {
  }

  /** The saved or summarised document covers every selected branch and totals them. */
  lemma DocumentCoversSelection(families: Families, format: string, branch: Option<string>, timestamp: string, load: Loader)
    requires families.Some? && SelectBranches(families.value, branch).Some?
    requires format == "json" || format == "yaml" || format == "summary"
    ensures var bs := SelectBranches(families.value, branch).value;
      var doc := GenerateMetadataOf(families, format, branch, timestamp, load).outcome.doc;
      && doc.generatedAt == timestamp
      && |doc.branches| == |bs| == doc.globalStatistics.totalBranches
      && (forall i :: 0 <= i < |bs| ==> doc.branches[i] == BranchMetadataOf(bs[i], load).meta)
      && doc.globalStatistics.totalMembers == CountRecords(doc.branches)
  {
    var bs := SelectBranches(families.value, branch).value;
    GlobalMembersAreRecords(bs, load);
    CollectAllAt(bs, load);
    MetasAt(CollectAll(bs, load));
  }

  /** How every running total of the branch loop grows by one branch. */
  lemma AppendBranch(bs: seq<BranchEntry>, i: nat, load: Loader, cs: seq<Collected>, c: Collected)
    requires i < |bs| && cs == CollectAll(bs[..i], load) && c == BranchMetadataOf(bs[i], load)
    ensures var ms := Metas(cs);
      && CollectAll(bs[..i + 1], load) == cs + [c]
      && Metas(cs + [c]) == ms + [c.meta]
      && AllWarnings(cs + [c]) == AllWarnings(cs) + c.warnings
      && SumMembers(ms + [c.meta]) == SumMembers(ms) + c.meta.statistics.totalMembers
      && SumInterviews(ms + [c.meta]) == SumInterviews(ms) + c.meta.statistics.totalInterviews
      && SumMedia(ms + [c.meta]) == SumMedia(ms) + c.meta.statistics.membersWithPhotos + c.meta.statistics.membersWithVideos
  {
    var ms := Metas(cs);
    assert bs[..i + 1][..i] == bs[..i];
    assert (cs + [c])[..|cs|] == cs;
    assert (ms + [c.meta])[..|ms|] == ms;
  }

  /** Lines 161-174: the loop over the selected branches and the global totals. */
  method CollectBranches(bs: seq<BranchEntry>, load: Loader)
    returns (branches: seq<BranchMeta>, global: GlobalStatistics, warnings: seq<string>)
    ensures branches == Metas(CollectAll(bs, load))
    ensures global == GlobalOf(branches)
    ensures warnings == AllWarnings(CollectAll(bs, load))
  {
    branches, warnings := [], [];
    var totalMembers, totalInterviews, membersWithMedia := 0, 0, 0;
    var i := 0;
    while i < |bs|
      invariant 0 <= i <= |bs|
      invariant branches == Metas(CollectAll(bs[..i], load)) && warnings == AllWarnings(CollectAll(bs[..i], load))
      invariant totalMembers == SumMembers(branches) && totalInterviews == SumInterviews(branches)
      invariant membersWithMedia == SumMedia(branches)
    {
      var meta, w := CollectBranchMetadata(bs[i], load);
      AppendBranch(bs, i, load, CollectAll(bs[..i], load), Collected(meta, w));
      branches := branches + [meta];
      warnings := warnings + w;
      totalMembers := totalMembers + meta.statistics.totalMembers;
      totalInterviews := totalInterviews + meta.statistics.totalInterviews;
      membersWithMedia := membersWithMedia + (meta.statistics.membersWithPhotos + meta.statistics.membersWithVideos);
      i := i + 1;
    }
    assert bs[..i] == bs;
    global := GlobalStatistics(|branches|, totalMembers, totalInterviews, membersWithMedia);
  }

  /** The command as the source runs it: the checks, the branch loop, then the format dispatch. */
  method GenerateMetadata(families: Families, format: string, branch: Option<string>,
                          timestamp: string, load: Loader)
    returns (outcome: Outcome, warnings: seq<string>)
    ensures Report(outcome, warnings) == GenerateMetadataOf(families, format, branch, timestamp, load)
  {
    if families.None? {
      return NoFamiliesDirectory, [];
    }
    var selected := SelectBranches(families.value, branch);
    if selected.None? {
      return BranchNotFound(branch.value), [];
    }
    var branches, global;
    branches, global, warnings := CollectBranches(selected.value, load);
    var doc := AllMetadata(timestamp, branches, global);
    if format == "json" {
      outcome := Saved(JsonFile, doc);
    } else if format == "yaml" {
      outcome := Saved(YamlFile, doc);
    } else if format == "summary" {
      var tables := DisplaySummary(doc);
      outcome := Displayed(doc, tables);
    } else {
      outcome := UnknownFormat(format);
    }
  }
}
