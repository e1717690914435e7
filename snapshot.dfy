/**
  A snapshot of the on-disk layout the commands read:
  `families/<branch>/README.md`, `families/<branch>/members/<member>/profile.md`,
  and whether `<member>/photos/` and `<member>/interviews/videos/` exist and
  are non-empty. Sequences are in directory-listing order, whatever that is.
 */
module Snapshot {
  import opened Wrappers

  /** One entry of a branch's `members` directory. */
  datatype MemberEntry = MemberEntry(
    name: string,
    isDir: bool,
    profile: Option<string>,    // text of `profile.md`, when the file exists
    photosNonEmpty: bool,       // `photos/` exists and has an entry
    videosNonEmpty: bool)       // `interviews/videos/` exists and has an entry

  /** One entry of the `families` directory. */
  datatype BranchEntry = BranchEntry(
    name: string,
    isDir: bool,
    readme: Option<string>,              // text of `README.md`, when the file exists
    members: Option<seq<MemberEntry>>)   // the `members` directory, when it exists

  /** `families/`, when it exists. */
  type Families = Option<seq<BranchEntry>>

  /** A directory whose name starts with `.` is hidden and never a branch. */
  predicate IsBranchDir(b: BranchEntry) {
    b.isDir && !(|b.name| > 0 && b.name[0] == '.')
  }
}
