/**
  `generate_static_site` (build_web.py): the pages written into the output
  directory. Templates are rendered by opaque functions; the output
  directory is a map from page path to page text, built by the writes in
  the order the code issues them, so a later write to the same path
  replaces the earlier page.
 */
module SiteRender {
  import opened Wrappers
  import opened Yaml
  import opened Snapshot
  import opened SiteData

  /** One `write_text`: a path under the output directory and the page text. */
  datatype Write = Write(path: string, text: string)

  /** How the command stops early. */
  datatype BuildError =
    | MissingDependencies
    | CollectionAborted(branch: string, member: string, reason: AbortReason)
    | TemplateNotFound(template: string)

  /** The writes made, in order, and the error that ended the command, if any. */
  datatype Build = Build(writes: seq<Write>, error: Option<BuildError>)

  /** The three Jinja templates, rendered with the collected data. */
  datatype Renderers = Renderers(
    index: Site -> string,
    branch: (BranchData, Site) -> string,
    member: (SiteMember, Site) -> string)

  const IndexPage: string := "index.html"

  function BranchPage(b: BranchData): string {
    b.name + ".html"
  }

  function MemberPage(m: SiteMember): string {
    "members/" + m.slug + ".html"
  }

  // ---------------------------------------------------------------------
  // The writes (lines 144-165)
  // ---------------------------------------------------------------------

  /** One page per branch, in order (lines 152-155). */
  function BranchWrites(bs: seq<BranchData>, d: Site, r: Renderers): (ws: seq<Write>)
    ensures |ws| == |bs|
    ensures forall k :: 0 <= k < |bs| ==> ws[k] == Write(BranchPage(bs[k]), r.branch(bs[k], d))
  {
    if bs == [] then [] else BranchWrites(bs[..|bs| - 1], d, r) + [Write(BranchPage(bs[|bs| - 1]), r.branch(bs[|bs| - 1], d))]
  }

  /** One page per member of the flat list, in order (lines 162-165). */
  function MemberWrites(ms: seq<SiteMember>, d: Site, r: Renderers): (ws: seq<Write>)
    ensures |ws| == |ms|
    ensures forall k :: 0 <= k < |ms| ==> ws[k] == Write(MemberPage(ms[k]), r.member(ms[k], d))
  {
    if ms == [] then [] else MemberWrites(ms[..|ms| - 1], d, r) + [Write(MemberPage(ms[|ms| - 1]), r.member(ms[|ms| - 1], d))]
  }

  /**
    The pages for collected data. A template is looked up just before its
    pages are written, so a missing one stops the command after the pages
    of the templates before it.
   */
  function RenderPages(d: Site, templates: set<string>, r: Renderers): Build {
    if "index.html" !in templates then Build([], Some(TemplateNotFound("index.html")))
    else
      var index := [Write(IndexPage, r.index(d))];
      if "branch.html" !in templates then Build(index, Some(TemplateNotFound("branch.html")))
      else
        var branches := index + BranchWrites(d.branches, d, r);
        if "member.html" !in templates then Build(branches, Some(TemplateNotFound("member.html")))
        else Build(branches + MemberWrites(d.members, d, r), None)
  }

  /**
    `generate_static_site`. `jinja` says whether the optional imports
    succeeded; `templates` is what the template directory holds (nothing,
    when it had to be created).
   */
  function GenerateStaticSiteOf(jinja: bool, templates: set<string>, families: Families,
                                load: Loader, r: Renderers): Build
  {
    if !jinja then Build([], Some(MissingDependencies))
    else match CollectFamilyDataOf(families, load)
      case Aborted(b, m, why) => Build([], Some(CollectionAborted(b, m, why)))
      case Collected(d) => RenderPages(d, templates, r)
  }

  // ---------------------------------------------------------------------
  // The output directory
  // ---------------------------------------------------------------------

  /** The paths written to. */
  function Paths(ws: seq<Write>): set<string> {
    if ws == [] then {} else Paths(ws[..|ws| - 1]) + {ws[|ws| - 1].path}
  }

  lemma {:induction false} PathsSpec(ws: seq<Write>)
    ensures forall k :: 0 <= k < |ws| ==> ws[k].path in Paths(ws)
    ensures forall p :: p in Paths(ws) ==> exists k :: 0 <= k < |ws| && ws[k].path == p
  {
    if ws != [] {
      var init := ws[..|ws| - 1];
      PathsSpec(init);
      assert forall k :: 0 <= k < |init| ==> init[k] == ws[k];
    }
  }

  /** The directory after the writes: each path holds the text of its last write. */
  function Files(ws: seq<Write>): (f: map<string, string>)
    ensures f.Keys == Paths(ws)
  {
    if ws == [] then map[]
    else Files(ws[..|ws| - 1])[ws[|ws| - 1].path := ws[|ws| - 1].text]
  }

  /** Last write wins: a path holds the text of the last write to it. */
  lemma {:induction false} LastWriteWins(ws: seq<Write>, k: nat)
    requires k < |ws|
    requires forall j :: k < j < |ws| ==> ws[j].path != ws[k].path
    ensures ws[k].path in Files(ws) && Files(ws)[ws[k].path] == ws[k].text
  {
    PathsSpec(ws);
    if k < |ws| - 1 {
      var init := ws[..|ws| - 1];
      assert init[k] == ws[k];
      assert forall j :: k < j < |init| ==> init[j] == ws[j];
      LastWriteWins(init, k);
    }
  }

  lemma MemberPageInjective(a: SiteMember, b: SiteMember)
    ensures MemberPage(a) == MemberPage(b) ==> a.slug == b.slug
  {
    if MemberPage(a) == MemberPage(b) {
      var pa := MemberPage(a);
      assert pa[8..|pa| - 5] == a.slug;
      var pb := MemberPage(b);
      assert pb[8..|pb| - 5] == b.slug;
    }
  }

  /** The only branch page at `index.html` is that of a branch named `index`. */
  lemma BranchPageIndex(b: BranchData)
    ensures BranchPage(b) == IndexPage <==> b.name == "index"
  {
    var p := BranchPage(b);
    if p == IndexPage {
      assert |b.name| == 5;
      assert b.name == p[..5];
    }
  }

  // ---------------------------------------------------------------------
  // What the command writes
  // ---------------------------------------------------------------------

  /** Without the optional web dependencies nothing is collected and nothing is written. */
  lemma NoDependenciesNoWrites(templates: set<string>, families: Families, load: Loader, r: Renderers)
    ensures GenerateStaticSiteOf(false, templates, families, load, r) == Build([], Some(MissingDependencies))
  {
  }

  /** A missing template stops the writes where its pages would begin. */
  lemma MissingTemplateCutsWrites(d: Site, templates: set<string>, r: Renderers)
    ensures var b := RenderPages(d, templates, r);
      && ("index.html" !in templates ==> b.writes == [])
      && ("index.html" in templates && "branch.html" !in templates ==> b.writes == [Write(IndexPage, r.index(d))])
      && ("index.html" in templates && "branch.html" in templates && "member.html" !in templates ==>
            |b.writes| == 1 + |d.branches|)
      && (b.error.None? <==> {"index.html", "branch.html", "member.html"} <= templates)
  {
  }

  /** The writes of a complete site. */
  function SitePages(d: Site, r: Renderers): (ws: seq<Write>)
    ensures |ws| == 1 + |d.branches| + |d.members|
    ensures ws[0] == Write(IndexPage, r.index(d))
    ensures forall k :: 0 <= k < |d.branches| ==> ws[1 + k] == Write(BranchPage(d.branches[k]), r.branch(d.branches[k], d))
    ensures forall k :: 0 <= k < |d.members| ==>
      ws[1 + |d.branches| + k] == Write(MemberPage(d.members[k]), r.member(d.members[k], d))
  {
    [Write(IndexPage, r.index(d))] + BranchWrites(d.branches, d, r) + MemberWrites(d.members, d, r)
  }

  lemma CompleteSite(d: Site, r: Renderers)
    ensures RenderPages(d, {"index.html", "branch.html", "member.html"}, r) == Build(SitePages(d, r), None)
  {
  }

  /** The complete site has the index page, every branch page and every member page. */
  lemma PagesPresent(d: Site, r: Renderers)
    ensures var f := Files(SitePages(d, r));
      && IndexPage in f
      && (forall b :: b in d.branches ==> BranchPage(b) in f)
      && (forall m :: m in d.members ==> MemberPage(m) in f)
  {
    var ws := SitePages(d, r);
    assert forall k :: 0 <= k < |ws| ==> ws[k].path in Paths(ws) by {
      PathsSpec(ws);
    }
    assert ws[0].path == IndexPage;
    forall b | b in d.branches ensures BranchPage(b) in Paths(ws) {
      var k :| 0 <= k < |d.branches| && d.branches[k] == b;
      assert ws[1 + k].path == BranchPage(b);
    }
    forall m | m in d.members ensures MemberPage(m) in Paths(ws) {
      var k :| 0 <= k < |d.members| && d.members[k] == m;
      assert ws[1 + |d.branches| + k].path == MemberPage(m);
    }
  }

  /** ... and no other page. */
  lemma PagesOnly(d: Site, r: Renderers, p: string)
    requires p in Files(SitePages(d, r))
    ensures p == IndexPage || (exists b :: b in d.branches && p == BranchPage(b))
            || (exists m :: m in d.members && p == MemberPage(m))
  {
    var ws := SitePages(d, r);
    assert exists k :: 0 <= k < |ws| && ws[k].path == p by {
      PathsSpec(ws);
    }
    var k :| 0 <= k < |ws| && ws[k].path == p;
    if 1 <= k < 1 + |d.branches| {
      assert d.branches[k - 1] in d.branches;
    } else if k >= 1 + |d.branches| {
      assert d.members[k - 1 - |d.branches|] in d.members;
    }
  }

  /**
    Two members with the same slug (in two branches, say) share one page:
    the page shows the member that comes later in the flat list.
   */
  lemma SameSlugLaterWins(d: Site, r: Renderers, i: nat, j: nat)
    requires i < j < |d.members| && d.members[i].slug == d.members[j].slug
    requires forall k :: j < k < |d.members| ==> d.members[k].slug != d.members[j].slug
    ensures var f := Files(SitePages(d, r));
      MemberPage(d.members[i]) in f && f[MemberPage(d.members[i])] == r.member(d.members[j], d)
  {
    assert MemberPage(d.members[i]) == MemberPage(d.members[j]);
    var ws := MemberWrites(d.members, d, r);
    MemberPagesAfter(d.members, d, r, j);
    LastWriteWins(ws, j);
    LaterWritesWin([Write(IndexPage, r.index(d))] + BranchWrites(d.branches, d, r), ws, ws[j].path);
  }

  /** No member page after the one of the member at `j` goes to its path when no later member shares the slug. */
  lemma MemberPagesAfter(ms: seq<SiteMember>, d: Site, r: Renderers, j: nat)
    requires j < |ms| && forall k :: j < k < |ms| ==> ms[k].slug != ms[j].slug
    ensures forall k :: j < k < |ms| ==> MemberWrites(ms, d, r)[k].path != MemberWrites(ms, d, r)[j].path
  {
    var ws := MemberWrites(ms, d, r);
    forall k | j < k < |ws| ensures ws[k].path != ws[j].path {
      MemberPageInjective(ms[k], ms[j]);
    }
  }

  /** Writes made before others do not show at a path the later ones write to. */
  lemma {:induction false} LaterWritesWin(pre: seq<Write>, post: seq<Write>, p: string)
    requires p in Files(post)
    ensures p in Files(pre + post) && Files(pre + post)[p] == Files(post)[p]
    decreases |post|
  {
    var init := post[..|post| - 1];
    assert (pre + post)[..|pre + post| - 1] == pre + init;
    assert (pre + post)[|pre + post| - 1] == post[|post| - 1];
    if post[|post| - 1].path != p {
      LaterWritesWin(pre, init, p);
    }
  }

  method GenerateStaticSite(jinja: bool, templates: set<string>, families: Families,
                            load: Loader, r: Renderers) returns (b: Build)
    ensures b == GenerateStaticSiteOf(jinja, templates, families, load, r)
  {
    if !jinja {
      return Build([], Some(MissingDependencies));
    }
    var collected := CollectFamilyData(families, load);
    if collected.Aborted? {
      return Build([], Some(CollectionAborted(collected.branch, collected.member, collected.reason)));
    }
    b := WritePages(collected.data, templates, r);
  }

  /** The writes of lines 144-165, in the order the code issues them, for collected data `d`. */
  method WritePages(d: Site, templates: set<string>, r: Renderers) returns (b: Build)
    ensures b == RenderPages(d, templates, r)
  {
    var writes: seq<Write> := [];
    if "index.html" !in templates {
      return Build(writes, Some(TemplateNotFound("index.html")));
    }
    writes := writes + [Write(IndexPage, r.index(d))];
    if "branch.html" !in templates {
      return Build(writes, Some(TemplateNotFound("branch.html")));
    }
    var i := 0;
    while i < |d.branches|
      invariant 0 <= i <= |d.branches|
      invariant writes == [Write(IndexPage, r.index(d))] + BranchWrites(d.branches[..i], d, r)
    {
      assert d.branches[..i + 1][..i] == d.branches[..i];
      writes := writes + [Write(BranchPage(d.branches[i]), r.branch(d.branches[i], d))];
      i := i + 1;
    }
    assert d.branches[..i] == d.branches;
    if "member.html" !in templates {
      return Build(writes, Some(TemplateNotFound("member.html")));
    }
    ghost var before := writes;
    var j := 0;
    while j < |d.members|
      invariant 0 <= j <= |d.members|
      invariant writes == before + MemberWrites(d.members[..j], d, r)
    {
      assert d.members[..j + 1][..j] == d.members[..j];
      writes := writes + [Write(MemberPage(d.members[j]), r.member(d.members[j], d))];
      j := j + 1;
    }
    assert d.members[..j] == d.members;
    b := Build(writes, None);
  }
}
