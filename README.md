# gitfam core, modelled in Dafny

gitfam keeps a family history in a directory tree. `families/<branch>/members/<slug>/`
holds each family member, with a `profile.md`. That file is a YAML frontmatter block
between `---` lines, followed by a markdown narrative. This project models the three
commands that read and write that tree:

- **generate-metadata** (`generate_metadata.py`) walks every branch. It collects each
  member's frontmatter, counts interviews and media, and gathers birth years and
  relationship edges. It then saves the result as JSON or YAML, or shows summary
  tables.
- **build-web** (`build_web.py`) collects the same tree into a site model. It writes
  an index page, one page per branch and one page per member.
- **add-member** (`add_member.py`) asks questions, validates the answers and builds a
  member slug. It refuses an existing member and writes a fresh `profile.md` and
  `README.md`.

Modules:

- `Wrappers` is `Option`.
- `PyStr` holds the Python string operations the code relies on: `strip`, `split`
  with `maxsplit`, `find`, `lower`, `title`, `isdigit`, `int` and `str`.
- `Yaml` is the value a YAML loader returns and Python truthiness over it. The loader
  itself is a parameter.
- `Snapshot` is the directory tree as data.
- `Frontmatter` is `parse_frontmatter`. Both commands carry identical copies of it,
  and one function models both.
- `BranchMetadata` is `collect_branch_metadata`.
- `MetadataCommand` covers `generate_metadata` and `display_summary`.
- `SiteData` is `collect_family_data`.
- `SiteRender` is the write sequence of `generate_static_site`.
- `MemberProfile` is the text of the generated profile and README.
- `AddMember` is the interactive command.

Each loop in the source is a method with a `while` loop. The method's `ensures` ties
its result to a left fold, a function over the prefix seen so far. The lemmas state
what that fold promises.

## Model

| member | source | states |
|---|---|---|
| PyStr.LStripSpec | gitfam/gitfam/commands/generate_metadata.py:24 | `lstrip` removes exactly a prefix of whitespace, and what is left starts with a non-space |
| PyStr.RStripSpec | gitfam/gitfam/commands/generate_metadata.py:24 | `rstrip` removes exactly a suffix of whitespace |
| PyStr.Strip | gitfam/gitfam/commands/generate_metadata.py:24 | a stripped text is no longer than the input and neither starts nor ends with whitespace |
| PyStr.StripIsTrimmedSlice | gitfam/gitfam/commands/generate_metadata.py:24 | `strip` returns a contiguous slice of the input, and everything cut on either side is whitespace |
| PyStr.StripKeepsText | gitfam/gitfam/commands/generate_metadata.py:24 | text that starts and ends with a non-space survives stripping, at its position shifted by the leading whitespace |
| PyStr.StripTrimmed | gitfam/gitfam/commands/build_web.py:67 | stripping a text without outer whitespace leaves it unchanged |
| PyStr.Find | gitfam/gitfam/commands/generate_metadata.py:18 | a found position is at or after the start and the separator occurs there |
| PyStr.FindFirst | gitfam/gitfam/commands/generate_metadata.py:18 | the found position is the first occurrence; no position after the start matches when nothing is found |
| PyStr.OccursInSuffix | gitfam/gitfam/commands/generate_metadata.py:18 | an occurrence in a suffix is an occurrence in the whole text at the shifted position, and back |
| PyStr.SplitFrom | gitfam/gitfam/commands/generate_metadata.py:18 | splitting with `maxsplit` n yields between 1 and n+1 pieces |
| PyStr.SplitFromJoin | gitfam/gitfam/commands/generate_metadata.py:18 | joining the pieces of a split with the separator gives back the split text |
| PyStr.SplitFromPieces | gitfam/gitfam/commands/generate_metadata.py:18 | no piece of a split contains the separator, except the last piece when the split limit was reached |
| PyStr.Split | gitfam/gitfam/commands/generate_metadata.py:18 | `str.split(sep, maxsplit)` yields between 1 and maxsplit+1 pieces |
| PyStr.SplitJoin | gitfam/gitfam/commands/generate_metadata.py:18 | `sep.join(s.split(sep, n)) == s` for every text |
| PyStr.Before | gitfam/gitfam/commands/generate_metadata.py:67 | `split('-')[0]` is a prefix without '-', cut exactly at the first '-' |
| PyStr.BeforeAbsent | gitfam/gitfam/commands/build_web.py:67 | the first piece of a text without the separator is the whole text |
| PyStr.BeforeJoined | gitfam/gitfam/commands/generate_metadata.py:67 | the first piece of `s + "-" + rest` is `s` when `s` has no '-' |
| PyStr.ReplaceChar | gitfam/gitfam/commands/build_web.py:57 | `replace` keeps the length and swaps exactly the matching characters |
| PyStr.RemoveChar | gitfam/gitfam/commands/build_web.py:67 | `replace(c, '')` keeps every other character, with its count, and drops every `c` |
| PyStr.ToLower | gitfam/gitfam/commands/add_member.py:116 | lowering keeps letters as letters and non-letters as they are, and leaves no upper-case letter |
| PyStr.ToUpper | gitfam/gitfam/commands/build_web.py:57 | upper-casing keeps letters as letters and leaves no lower-case letter |
| PyStr.Lower | gitfam/gitfam/commands/add_member.py:116 | `lower` maps each character independently and keeps the length |
| PyStr.TitleFrom | gitfam/gitfam/commands/build_web.py:57 | title-casing keeps the length |
| PyStr.TitleFromAt | gitfam/gitfam/commands/build_web.py:57 | a letter is upper-cased exactly when the character before it is not a letter, otherwise lowered; non-letters are kept |
| PyStr.TitleSpec | gitfam/gitfam/commands/build_web.py:57 | `title` is the character-wise rule of TitleFromAt over the whole text |
| PyStr.TitleIdempotent | gitfam/gitfam/commands/build_web.py:57 | title-casing a title-cased text changes nothing |
| PyStr.DigitChar | gitfam/gitfam/commands/generate_metadata.py:232 | each digit value has a digit character that reads back as that value |
| PyStr.ParseInt | gitfam/gitfam/commands/generate_metadata.py:67 | the model's `int(text)` succeeds on a non-empty string of ASCII digits, with the non-negative number they spell, and fails on any other text |
| PyStr.NatToDecimal | gitfam/gitfam/commands/generate_metadata.py:232 | `str(n)` for n ≥ 0 is all digits, with no leading zero |
| PyStr.IntToDecimal | gitfam/gitfam/commands/generate_metadata.py:228 | `str(i)` is non-empty and starts with '-' exactly when i is negative |
| PyStr.ParseNatToDecimal | gitfam/gitfam/commands/generate_metadata.py:232 | `int(str(n)) == n` |
| PyStr.Zeros | gitfam/gitfam/commands/generate_metadata.py:67 | a run of n zeros has length n |
| PyStr.ZeroPad | gitfam/gitfam/commands/generate_metadata.py:67 | padding reaches at least the width and never shortens |
| PyStr.DigitsValueZeros | gitfam/gitfam/commands/generate_metadata.py:67 | a run of zeros reads as 0 |
| PyStr.DigitsValueLeadingZeros | gitfam/gitfam/commands/generate_metadata.py:67 | leading zeros do not change the value `int` reads |
| PyStr.ParseZeroPadded | gitfam/gitfam/commands/generate_metadata.py:67 | `int` of a zero-padded digit string equals `int` of the unpadded one |
| Yaml.PyLen | gitfam/gitfam/commands/generate_metadata.py:83 | `len` is defined exactly for strings, lists and mappings, and raises otherwise |
| Yaml.OrEmptyShape | gitfam/gitfam/commands/generate_metadata.py:25 | `frontmatter or {}` is either the empty mapping or the loaded value itself, and then that value is truthy |
| Frontmatter.SplitAtDelimiters | gitfam/gitfam/commands/generate_metadata.py:18-19 | on text that starts with `---`, the split gives two pieces when no closing `---` follows, else three: the empty opening, the block and the rest |
| Frontmatter.OpeningSplit | gitfam/gitfam/commands/generate_metadata.py:18 | the first piece of the split is the empty text before the opening `---` |
| Frontmatter.ClosingSplit | gitfam/gitfam/commands/generate_metadata.py:18 | after the opening, the split cuts once, at the first `---` found from position 3 |
| Frontmatter.ParseFrontmatter | gitfam/gitfam/commands/generate_metadata.py:13-27 | no opening `---`, no closing `---` or a YAML error each give `({}, content)`; otherwise the result is the loaded block (`or {}`) and the stripped rest |
| Frontmatter.ParseFailsSoft | gitfam/gitfam/commands/generate_metadata.py:26-27 | parsing never fails: it returns `({}, content)` or a body at least 6 characters shorter than the content |
| Frontmatter.BlockHasNoDelimiter | gitfam/gitfam/commands/generate_metadata.py:18 | the YAML block handed to the loader never contains `---` |
| Frontmatter.NullBlockGivesEmptyMap | gitfam/gitfam/commands/generate_metadata.py:25 | a block that loads to a falsy value (null, 0, "", [], {}) yields the empty mapping, and the body is still returned |
| Frontmatter.BodyIsStrippedRest | gitfam/gitfam/commands/generate_metadata.py:24 | the body is the text after the closing `---`, stripped |
| Frontmatter.LaterDelimiterKept | gitfam/gitfam/commands/generate_metadata.py:18 | a `---` after the closing one stays in the body, at its position shifted by the stripped whitespace |
| BranchMetadata.BirthYearSource | gitfam/gitfam/commands/generate_metadata.py:64-70 | a birth year is only found for a truthy string, integer or date, and it is never negative |
| BranchMetadata.BirthYearOfText | gitfam/gitfam/commands/generate_metadata.py:67 | a text `YYYY` or `YYYY-…` gives the year written in its digits |
| BranchMetadata.LeadingDashGivesNoYear | gitfam/gitfam/commands/generate_metadata.py:67-70 | a text starting with '-' gives an empty first piece; `int('')` fails and the year is skipped |
| BranchMetadata.BirthYearOfInt | gitfam/gitfam/commands/generate_metadata.py:65-70 | an integer birth date gives itself when positive; 0 is falsy and a negative number splits to '' and is dropped |
| BranchMetadata.BirthYearOfDate | gitfam/gitfam/commands/generate_metadata.py:67 | a YAML date gives its year, since its text is `YYYY-MM-DD` |
| BranchMetadata.YearOf | gitfam/gitfam/commands/generate_metadata.py:64-70 | a frontmatter mapping contributes at most one birth year, and one exactly when its `birth_date` (default '') yields a year |
| BranchMetadata.Min | gitfam/gitfam/commands/generate_metadata.py:117 | `min` returns an element that is at most every element |
| BranchMetadata.Max | gitfam/gitfam/commands/generate_metadata.py:118 | `max` returns an element that is at least every element |
| BranchMetadata.YearRangeOf | gitfam/gitfam/commands/generate_metadata.py:114-120 | there is a range exactly when some year was found; its ends are found years bounding all others, and span = latest − earliest ≥ 0 |
| BranchMetadata.ListEdges | gitfam/gitfam/commands/generate_metadata.py:103-108 | one edge per relationship entry in order, stopping at the first entry that is not a mapping (`rel.get` raises there) |
| BranchMetadata.EdgesForMappings | gitfam/gitfam/commands/generate_metadata.py:103-108 | a list of mappings is fully converted: one edge each, with from = slug, to = `person` (default '') and type = `type` (default '') |
| BranchMetadata.EdgesFromSlug | gitfam/gitfam/commands/generate_metadata.py:105 | every edge of a member starts at that member's slug |
| BranchMetadata.VisitEffect | gitfam/gitfam/commands/generate_metadata.py:59-112 | a readable profile adds its birth year and media counts whenever its frontmatter is a mapping; member, count, interview total and edges are added only when `len(interviews)` succeeds, and nothing is added otherwise |
| BranchMetadata.AppendConsistent | gitfam/gitfam/commands/generate_metadata.py:99-108 | appending a member together with edges from its slug keeps the tally consistent |
| BranchMetadata.VisitConsistent | gitfam/gitfam/commands/generate_metadata.py:59-112 | visiting one member keeps total_members = number of records, and keeps every edge starting at a recorded slug |
| BranchMetadata.ScanConsistent | gitfam/gitfam/commands/generate_metadata.py:51-112 | the whole member loop keeps the tally consistent |
| BranchMetadata.ScanCounts | gitfam/gitfam/commands/generate_metadata.py:51-112 | total_members counts the profiles whose interviews have a length, and total_interviews sums those lengths; birth years are the years of the profiles whose frontmatter is a mapping, in scan order; photo and video counts count those profiles that have media |
| BranchMetadata.SkippedEntry | gitfam/gitfam/commands/generate_metadata.py:52-57 | a non-directory or a member without `profile.md` leaves the tally unchanged |
| BranchMetadata.Readable | gitfam/gitfam/commands/generate_metadata.py:52-57 | the entries kept are directories that have a profile |
| BranchMetadata.ScanIgnoresSkipped | gitfam/gitfam/commands/generate_metadata.py:52-57 | scanning all entries is the same as scanning only the readable ones |
| BranchMetadata.NullInterviewsNoRollback | gitfam/gitfam/commands/generate_metadata.py:63-112 | `interviews: null` raises at `len`, after the birth year and media counts were already recorded: those stay, and no member is added |
| BranchMetadata.NullRelationshipsAfterAppend | gitfam/gitfam/commands/generate_metadata.py:99-112 | `relationships: null` raises after the member was appended and counted: the record stays, no edge is added and a warning is recorded |
| BranchMetadata.BranchMetadataOf | gitfam/gitfam/commands/generate_metadata.py:30-122 | the result carries the branch name; no `members` directory gives the zero metadata; a birth-year range exists exactly when some year was found |
| BranchMetadata.BranchMetadataConsistent | gitfam/gitfam/commands/generate_metadata.py:30-122 | a branch's total_members equals its number of member records, and every relationship starts at a member of the branch |
| BranchMetadata.ScanYearsNonNegative | gitfam/gitfam/commands/generate_metadata.py:63-70 | every collected birth year is non-negative |
| BranchMetadata.BranchYearsNonNegative | gitfam/gitfam/commands/generate_metadata.py:114-120 | a branch's birth-year range satisfies 0 ≤ earliest ≤ latest |
| BranchMetadata.AppendEdges | gitfam/gitfam/commands/generate_metadata.py:103-108 | the relationship loop appends exactly the edges RelationshipEdges describes, and reports whether it finished without raising |
| BranchMetadata.VisitMember | gitfam/gitfam/commands/generate_metadata.py:59-112 | the loop body for one member computes Visit |
| BranchMetadata.CountBirthAndMediaOf | gitfam/gitfam/commands/generate_metadata.py:63-79 | the birth-year and media steps compute CountBirthAndMedia |
| BranchMetadata.AppendMemberData | gitfam/gitfam/commands/generate_metadata.py:81-112 | the interviews, member-record and relationship steps compute AppendMember |
| BranchMetadata.CollectBranchMetadata | gitfam/gitfam/commands/generate_metadata.py:30-122 | the method returns exactly the metadata and warnings of BranchMetadataOf |
| MetadataCommand.BranchDirs | gitfam/gitfam/commands/generate_metadata.py:159 | only visible directories are kept, and there are never more of them than entries |
| MetadataCommand.BranchDirsMembership | gitfam/gitfam/commands/generate_metadata.py:159 | an entry is selected exactly when it is a directory whose name does not start with '.' |
| MetadataCommand.FindEntry | gitfam/gitfam/commands/generate_metadata.py:153-154 | the lookup finds the first entry with the name, or reports that no entry has it |
| MetadataCommand.SelectBranches | gitfam/gitfam/commands/generate_metadata.py:151-159 | no branch (or '') selects all visible directories; a named branch fails exactly when no entry has that name, else selects that one entry |
| MetadataCommand.HiddenBranchOnlyByName | gitfam/gitfam/commands/generate_metadata.py:152-159 | a hidden directory is never selected in the full scan, but is selected when named |
| MetadataCommand.CollectAll | gitfam/gitfam/commands/generate_metadata.py:161-163 | one collected result per selected branch |
| MetadataCommand.CollectAllAt | gitfam/gitfam/commands/generate_metadata.py:161-164 | the i-th result is the i-th branch's metadata |
| MetadataCommand.Metas | gitfam/gitfam/commands/generate_metadata.py:164 | one metadata entry per collected branch |
| MetadataCommand.MetasAt | gitfam/gitfam/commands/generate_metadata.py:164 | entries are kept in order |
| MetadataCommand.GlobalMembersAreRecords | gitfam/gitfam/commands/generate_metadata.py:161-174 | the global total_members equals the number of member records over all branches |
| MetadataCommand.YearStrNA | gitfam/gitfam/commands/generate_metadata.py:228 | the year column is "N/A" exactly when the branch has no birth-year range |
| MetadataCommand.YearStrRoundTrip | gitfam/gitfam/commands/generate_metadata.py:228 | the `earliest-latest` text splits at its first '-' back into both years |
| MetadataCommand.BranchRows | gitfam/gitfam/commands/generate_metadata.py:225-237 | one table row per branch, in order |
| MetadataCommand.RowNumbersReadBack | gitfam/gitfam/commands/generate_metadata.py:230-237 | each numeric column of a row reads back as the statistic it shows |
| MetadataCommand.DisplaySummary | gitfam/gitfam/commands/generate_metadata.py:197-239 | the table-building loop yields the four global rows and one row per branch |
| MetadataCommand.WritesIffSaved | gitfam/gitfam/commands/generate_metadata.py:125-194 | a file is written exactly when `families` exists, the branch is found and the format is json or yaml; the file name follows the format |
| MetadataCommand.DispatchSaved | gitfam/gitfam/commands/generate_metadata.py:176-194 | only "json" and "yaml" save, to family-metadata.json and family-metadata.yaml |
| MetadataCommand.DocumentCoversSelection | gitfam/gitfam/commands/generate_metadata.py:148-174 | the document carries the timestamp, one entry per selected branch in order, total_branches equal to their number, and total_members equal to the records |
| MetadataCommand.AppendBranch | gitfam/gitfam/commands/generate_metadata.py:161-172 | one loop step appends one branch and adds its members, interviews and photos+videos to the totals |
| MetadataCommand.CollectBranches | gitfam/gitfam/commands/generate_metadata.py:161-174 | the branch loop returns the branch metadata, global statistics and warnings the folds describe |
| MetadataCommand.GenerateMetadata | gitfam/gitfam/commands/generate_metadata.py:125-194 | the command returns exactly GenerateMetadataOf's outcome and warnings |
| SiteData.DisplayNameSpec | gitfam/gitfam/commands/build_web.py:57 | the display name keeps the length and contains no '-': each '-' became a space, and each character follows the title-case rule |
| SiteData.DescriptionOfBody | gitfam/gitfam/commands/build_web.py:67 | the description has no outer whitespace |
| SiteData.Description | gitfam/gitfam/commands/build_web.py:63-67 | a branch has a description exactly when it has a README |
| SiteData.StripWithin | gitfam/gitfam/commands/build_web.py:67 | stripping adds no character |
| SiteData.DescriptionShape | gitfam/gitfam/commands/build_web.py:67 | a description never contains '#' or a newline |
| SiteData.RemoveCharConcat | gitfam/gitfam/commands/build_web.py:67 | removing a character distributes over concatenation |
| SiteData.RemoveCharAbsent | gitfam/gitfam/commands/build_web.py:67 | removing an absent character changes nothing |
| SiteData.HeadingDescription | gitfam/gitfam/commands/build_web.py:67 | a README starting `# Title` gets `Title` as its description |
| SiteData.HeadingLine | gitfam/gitfam/commands/build_web.py:67 | the first line of such a README is its heading |
| SiteData.HeadingHashes | gitfam/gitfam/commands/build_web.py:67 | removing '#' from `# Title` leaves ` Title` |
| SiteData.HeadingStrip | gitfam/gitfam/commands/build_web.py:67 | stripping ` Title` leaves `Title` |
| SiteData.ReadMember | gitfam/gitfam/commands/build_web.py:72-94 | an entry is skipped exactly when it is not a directory or has no profile; a read member carries the slug, the branch, the parsed body and the media flags |
| SiteData.NameDefaultsToSlug | gitfam/gitfam/commands/build_web.py:85 | without a `name` key, the member's name is its slug |
| SiteData.Reads | gitfam/gitfam/commands/build_web.py:72 | one read per member entry, in order |
| SiteData.ScanReadsOkIff | gitfam/gitfam/commands/build_web.py:72-99 | the member loop completes exactly when no read raises |
| SiteData.ScanBranchOkIff | gitfam/gitfam/commands/build_web.py:72-99 | a branch's members are collected exactly when no profile makes `len(interviews)` raise |
| SiteData.ScanReadsTagged | gitfam/gitfam/commands/build_web.py:90 | every collected member is tagged with the branch it was read from |
| SiteData.ScanBranchTagged | gitfam/gitfam/commands/build_web.py:90 | every member collected for a branch carries that branch's name |
| SiteData.ScanReadsFailSticks | gitfam/gitfam/commands/build_web.py:99 | once a read has raised, later entries change nothing |
| SiteData.ScanStep | gitfam/gitfam/commands/build_web.py:72-99 | one member step appends the member and adds its interview count, skips the entry, or aborts on that member |
| SiteData.ReadBranch | gitfam/gitfam/commands/build_web.py:51-99 | only visible directories are branches; a read branch keeps its name as name and path |
| SiteData.ReadBranchSpec | gitfam/gitfam/commands/build_web.py:51-99 | a branch's members are tagged with it, and reading it aborts exactly when one of its profiles raises |
| SiteData.BranchReads | gitfam/gitfam/commands/build_web.py:51 | one read per families entry, in order |
| SiteData.CollectStep | gitfam/gitfam/commands/build_web.py:51-102 | one branch step adds the branch and its members to the site, skips the entry, or propagates the abort |
| SiteData.CollectFamilyDataOf | gitfam/gitfam/commands/build_web.py:48-49 | without a `families` directory the data is empty |
| SiteData.FlattenLength | gitfam/gitfam/commands/build_web.py:96-97 | the flat member list is as long as all branch lists together |
| SiteData.AddBranchCoherent | gitfam/gitfam/commands/build_web.py:96-102 | adding a branch keeps the flat member list the concatenation of the branch lists, and keeps both counters exact |
| SiteData.CollectReadsCoherent | gitfam/gitfam/commands/build_web.py:51-104 | the whole branch loop keeps the site coherent |
| SiteData.CollectedCounts | gitfam/gitfam/commands/build_web.py:36-104 | total_members = number of members = sum of branch sizes, total_branches = number of branches, and members are the branch lists in order, each tagged |
| SiteData.BranchNames | gitfam/gitfam/commands/build_web.py:56 | the name list matches the branches one for one |
| SiteData.CollectReadsNames | gitfam/gitfam/commands/build_web.py:51-53 | the collected branches are exactly the visible directories, in order |
| SiteData.BranchesAreDirectories | gitfam/gitfam/commands/build_web.py:51-53 | the site's branches are exactly the visible directories of `families`, in order |
| SiteData.CollectReadsIff | gitfam/gitfam/commands/build_web.py:51-104 | collection completes exactly when no branch aborts |
| SiteData.CollectedIffSafe | gitfam/gitfam/commands/build_web.py:36-104 | collection completes exactly when no profile in any visible branch makes `len(interviews)` raise |
| SiteData.CollectAbortSticks | gitfam/gitfam/commands/build_web.py:51-104 | once a branch has aborted, later entries change nothing |
| SiteData.ScanBranchMembers | gitfam/gitfam/commands/build_web.py:69-99 | the member loop either reports the member that raised, or appends the branch's members to the site and adds their counts |
| SiteData.FailureIsFinal | gitfam/gitfam/commands/build_web.py:72-99 | a failure in a prefix of the members is the result for the whole list |
| SiteData.CollectFamilyData | gitfam/gitfam/commands/build_web.py:36-104 | the method returns exactly CollectFamilyDataOf |
| SiteRender.BranchWrites | gitfam/gitfam/commands/build_web.py:150-155 | one write of `<name>.html` per branch, in order |
| SiteRender.MemberWrites | gitfam/gitfam/commands/build_web.py:157-165 | one write of `members/<slug>.html` per member, in order |
| SiteRender.PathsSpec | gitfam/gitfam/commands/build_web.py:144-165 | the set of written paths is exactly the paths of the writes |
| SiteRender.Files | gitfam/gitfam/commands/build_web.py:144-165 | the output files are exactly the written paths |
| SiteRender.LastWriteWins | gitfam/gitfam/commands/build_web.py:148-165 | a file holds the text of the last write to its path |
| SiteRender.MemberPageInjective | gitfam/gitfam/commands/build_web.py:165 | two members share a page exactly when they share a slug |
| SiteRender.BranchPageIndex | gitfam/gitfam/commands/build_web.py:148-155 | a branch named `index` writes over `index.html`, and no other branch does |
| SiteRender.NoDependenciesNoWrites | gitfam/gitfam/commands/build_web.py:110-113 | without Jinja2 nothing is written |
| SiteRender.MissingTemplateCutsWrites | gitfam/gitfam/commands/build_web.py:144-165 | a missing index, branch or member template stops the build with only the earlier pages written; the build succeeds exactly when all three exist |
| SiteRender.SitePages | gitfam/gitfam/commands/build_web.py:144-165 | a full build writes the index, then every branch page in order, then every member page in order |
| SiteRender.CompleteSite | gitfam/gitfam/commands/build_web.py:144-165 | with all three templates the build writes exactly SitePages and reports no error |
| SiteRender.PagesPresent | gitfam/gitfam/commands/build_web.py:144-165 | the index, every branch page and every member page is present in the output |
| SiteRender.PagesOnly | gitfam/gitfam/commands/build_web.py:144-165 | every output file is the index, a branch page or a member page |
| SiteRender.SameSlugLaterWins | gitfam/gitfam/commands/build_web.py:162-165 | when two members share a slug, the page holds the last one's rendering |
| SiteRender.MemberPagesAfter | gitfam/gitfam/commands/build_web.py:165 | members with other slugs write other pages |
| SiteRender.LaterWritesWin | gitfam/gitfam/commands/build_web.py:144-165 | earlier writes never override a path written later |
| SiteRender.GenerateStaticSite | gitfam/gitfam/commands/build_web.py:107-174 | the command's writes and error are exactly GenerateStaticSiteOf |
| SiteRender.WritePages | gitfam/gitfam/commands/build_web.py:144-165 | the three write loops produce exactly RenderPages |
| MemberProfile.RelTypeName | gitfam/gitfam/commands/add_member.py:142 | a relationship type as written into the profile contains no '-' |
| MemberProfile.BirthDateShown | gitfam/gitfam/commands/add_member.py:133 | the birth date shown is the one entered, or the birth year when none was entered |
| MemberProfile.PlaceShown | gitfam/gitfam/commands/add_member.py:199 | the place shown is the one entered, or `[location]` |
| MemberProfile.FirstWord | gitfam/gitfam/commands/add_member.py:167 | `split()[0]` exists exactly when the name is not blank; it is the leading run of non-space characters after the leading whitespace |
| MemberProfile.Word | gitfam/gitfam/commands/add_member.py:167 | a word is a whitespace-free prefix that ends at whitespace or at the end |
| MemberProfile.RelLines | gitfam/gitfam/commands/add_member.py:141-142 | a non-empty relationship list renders as lines ending in a newline |
| MemberProfile.ProfileText | gitfam/gitfam/commands/add_member.py:130-218 | the profile text is built exactly when the full name has a first word, and fails (IndexError) otherwise |
| MemberProfile.BuildProfile | gitfam/gitfam/commands/add_member.py:130-218 | the profile-building loop produces ProfileText |
| MemberProfile.RelLinesStep | gitfam/gitfam/commands/add_member.py:141-142 | each loop round appends one relationship's two lines |
| MemberProfile.RelLinesConcat | gitfam/gitfam/commands/add_member.py:141-142 | rendering two lists in a row is rendering their concatenation |
| MemberProfile.RelLinesThird | gitfam/gitfam/commands/add_member.py:142 | a relationship block starts with the list marker `  -` |
| MemberProfile.BlockShape | gitfam/gitfam/commands/add_member.py:141-145 | the placeholder comment appears exactly when no relationship was given |
| MemberProfile.RelLineClean | gitfam/gitfam/commands/add_member.py:142 | a relationship line has no `---`, given a person without one |
| MemberProfile.RelLinesClean | gitfam/gitfam/commands/add_member.py:141-142 | the relationship block has no `---` and does not end in '-' |
| MemberProfile.EventsAndInterviewsClean | gitfam/gitfam/commands/add_member.py:147-160 | the fixed events and interviews section has no `---` |
| MemberProfile.AfterNameClean | gitfam/gitfam/commands/add_member.py:133-138 | the lines after the name have no `---` when the entered values have none |
| MemberProfile.MetaHeadClean | gitfam/gitfam/commands/add_member.py:130-139 | the head of the frontmatter has no `---` when the entered values have none |
| MemberProfile.MetaClean | gitfam/gitfam/commands/add_member.py:130-160 | the whole frontmatter block has no `---` when the entered values have none |
| MemberProfile.FramedFind | gitfam/gitfam/commands/add_member.py:130-161 | in `--- block --- body` with a clean block, the closing delimiter is found right after the block |
| MemberProfile.FramedReadBack | gitfam/gitfam/commands/generate_metadata.py:13-27 | such a text parses back to the loaded block and the stripped body, or to `({}, text)` when the block does not load |
| MemberProfile.ProfileFrame | gitfam/gitfam/commands/add_member.py:130-218 | a profile is `---`, the frontmatter block, `---`, then the narrative |
| MemberProfile.ProfileTextFramed | gitfam/gitfam/commands/add_member.py:130-218 | a built profile has that framed form with the generated narrative |
| MemberProfile.FoundBy | gitfam/gitfam/commands/generate_metadata.py:18 | a `---` in the head is found no later than its position |
| MemberProfile.NameInHead | gitfam/gitfam/commands/add_member.py:132 | a `---` inside the name sits inside the frontmatter head |
| MemberProfile.DelimiterInNameCutsEarly | gitfam/gitfam/commands/add_member.py:132 | a name containing `---` makes the reader close the frontmatter inside the head, before the intended delimiter |
| AddMember.YearAcceptedRange | gitfam/gitfam/commands/add_member.py:63 | an accepted year reads as a number in 0..9999, and every year 1000..9999 written out is accepted |
| AddMember.BlankNameAcceptedAsWritten | gitfam/gitfam/commands/add_member.py:54 | the name validator accepts " ", although it has no first word |
| AddMember.NameAcceptedIsStricter | gitfam/gitfam/commands/add_member.py:54 | every name with a first word also passes the validator as written |
| AddMember.MemberSlug | gitfam/gitfam/commands/add_member.py:116 | the slug is the lower-cased name with spaces as '-', then '-', then the year |
| AddMember.SlugEndsWithYear | gitfam/gitfam/commands/add_member.py:116 | with an accepted year, the slug ends in `-YYYY`, reads back the year and has no space or upper-case letter |
| AddMember.SlugCollision | gitfam/gitfam/commands/add_member.py:116-119 | "Ann Lee" and "ann-lee" born the same year get the same slug, so the second is refused as existing |
| AddMember.PickedOne | gitfam/gitfam/commands/add_member.py:107-113 | a round appends a relationship exactly when a person was given |
| AddMember.Picked | gitfam/gitfam/commands/add_member.py:95-113 | never more relationships than rounds |
| AddMember.PickedNamed | gitfam/gitfam/commands/add_member.py:112 | every recorded relationship names a person |
| AddMember.PickedConcat | gitfam/gitfam/commands/add_member.py:97-113 | the rounds' relationships are appended in order |
| AddMember.PickedEmpty | gitfam/gitfam/commands/add_member.py:112-113 | no relationship is recorded exactly when no round gave a person |
| AddMember.FirstFinish | gitfam/gitfam/commands/add_member.py:104-105 | the loop stops at the first "Done" answer, and all rounds before it were picks |
| AddMember.FirstFinishAt | gitfam/gitfam/commands/add_member.py:104-105 | a "Done" preceded only by picks is where the loop stops |
| AddMember.LaterRoundsIgnored | gitfam/gitfam/commands/add_member.py:104-105 | answers after "Done" change nothing |
| AddMember.FirstFinishPrefix | gitfam/gitfam/commands/add_member.py:104-105 | where the loop stops does not depend on later answers |
| AddMember.LoopEndsOnDone | gitfam/gitfam/commands/add_member.py:97-113 | the loop ends exactly when some round answers "Done", and it consumes the rounds up to the first one |
| AddMember.CollectRelationships | gitfam/gitfam/commands/add_member.py:95-113 | the `while True` loop ends exactly when RelationshipLoop finishes, and then returns its relationships |
| AddMember.PickedStep | gitfam/gitfam/commands/add_member.py:112-113 | one round appends that round's relationship, if any |
| AddMember.ResolveBranch | gitfam/gitfam/commands/add_member.py:26-46 | a branch given on the command line is used as is; otherwise a branch is chosen only when `families` exists and holds a visible branch directory and the choice was not cancelled, and an early return creates nothing |
| AddMember.EmptyNameCreatesNothing | gitfam/gitfam/commands/add_member.py:57-58 | a cancelled or empty name creates no directory |
| AddMember.CreatesOnlyNewPaths | gitfam/gitfam/commands/add_member.py:116-127 | directories are created only at a path that did not exist; a refusal names a slug that exists |
| AddMember.CreatedShape | gitfam/gitfam/commands/add_member.py:116-218 | a created member sits at `families/<branch>/members/<slug>` with the entered fields and the loop's relationships |
| AddMember.CreatedProfileFramed | gitfam/gitfam/commands/add_member.py:130-221 | the written profile starts with `---` and is the framed frontmatter followed by the narrative |
| AddMember.ProfileStartsWithDelimiter | gitfam/gitfam/commands/add_member.py:130 | every profile starts with `---`, so the readers try to parse it |
| AddMember.BlankNameLeavesEmptyMember | gitfam/gitfam/commands/add_member.py:54-167 | the name " " with an accepted year creates the directories and then fails before any profile is written |
| AddMember.AcceptedNameCreatesProfile | gitfam/gitfam/commands/add_member.py:51-221 | a name with a first word, an accepted year, a finished loop and a new path create a member with a profile |
| AddMember.DefaultBirthDateGivesYear | gitfam/gitfam/commands/add_member.py:133 | when no birth date was entered and the loader keeps the written `birth_date` as text, generate-metadata reads the birth year back from it |
| AddMember.FreshProfileWithNullInterviews | gitfam/gitfam/commands/add_member.py:154-161 | a fresh profile whose `interviews:` loads as null is counted for media but never recorded by generate-metadata, and it aborts build-web |
| AddMember.AddFamilyMember | gitfam/gitfam/commands/add_member.py:21-250 | the command's outcome is AddToBranch; when it creates a member, it writes the profile and README texts of the model |

## Left out

- `cli.py`, `init.py` and `add_branch.py` are not part of this model. They only dispatch to the commands or create other files.
- Interactive prompts become an `Answers` record: the values typed, `None` for a cancelled prompt, and a list of relationship rounds.
- The "add another member?" prompt and its recursive call (add_member.py:255-264) are not modelled. Each run models one member.
- YAML parsing is a parameter `load`, returning `None` for a YAML error. Its results are the usual YAML values: null, bool, int, str, date, list and mapping. Floats and other tags are not modelled.
- JSON and YAML dumping, rich console output, and Jinja2 and markdown rendering are not modelled. A saved document is the model's value. Pages come from a `Renderers` parameter with one text function per template.
- `datetime.now()` is a parameter: a timestamp string in generate-metadata, and `today` in add-member.
- `str.lower`, `title`, `isdigit`, `int` and the digit tests are modelled for ASCII only. `strip` and `split()` use Python's whitespace set.
- The directory tree is a snapshot value. The order of `iterdir` is the order of the given sequences, and no result relies on it being sorted.
- `families / branch` path joining is modelled as a lookup by entry name. A name containing '/' or '..' is not modelled.
- The check for the templates directory and `create_default_templates`, `create_static_assets` and the `mkdir` calls of build-web are not modelled. They produce no page listed by the model, and the templates present are a given set of names.
- The member directories created by add-member (add_member.py:123-127) are a `CreatesDirectories` outcome, not file-system effects.
- AddMember.FreshProfileWithNullInterviews: stated for the framed form `--- meta --- narrative` of a written profile. MemberProfile.ProfileFrame and MemberProfile.MetaClean show that a generated profile has that form. The YAML loader being a parameter, the model does not prove that this profile's block loads with `interviews: null`.
- Behaviour worth noting, as the code has it:
  - a branch description is the README body's first line with every '#' removed and then stripped, even when that line is empty;
  - a missing branch or member template fails after the earlier pages were already written;
  - naming a hidden branch selects it, even though the full scan skips it.
- PyStr.ParseInt: accepts only ASCII digits. Python's `int` also allows surrounding whitespace, a leading '+' and '_' between digits. So a birth date such as `1950 - 1951`, whose first piece is "1950 ", gives 1950 in Python but no year in the model.
- The snapshot has no unreadable file states, so three read errors are not modelled:
  - a profile.md that is not UTF-8 or is a directory (generate_metadata.py:60, build_web.py:80);
  - a `photos` entry that is a file (generate_metadata.py:73, build_web.py:92);
  - an `interviews/videos` entry that is a file (generate_metadata.py:74, build_web.py:93).
  In generate-metadata these raise inside the try, so the member is skipped with a warning; at lines 73-74 its birth year has already been recorded. In build-web they end the build.
- AddMember.ResolveBranch: the picked branch `choice` is a parameter. The model does not require it to be one of the listed branches, although the selection prompt (add_member.py:40-44) only offers those.
- The `Date` value of the YAML model holds any natural year. The YAML loader only produces years 1 to 9999, and the model relies on no bound.

## Findings

| source | as written | input that shows it | evidently intended | confidence | as-written member | corrected member |
|---|---|---|---|---|---|---|
| gitfam/gitfam/commands/add_member.py:54 | the name validator accepts any non-empty text; the member directories are created at lines 124-127, then `full_name.split()[0]` at line 167 raises IndexError before the profile is written | full name " " with birth year "1950" | reject blank names, so that every accepted name yields a profile | not executed | AddMember.BlankNameLeavesEmptyMember | AddMember.AcceptedNameCreatesProfile |
