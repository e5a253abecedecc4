/**
 Workspace assembly: `assemble_workspace` merges the snapshot's content,
 data and static trees into the workspace, and only then checks the
 template key before installing the theme and the base configuration.
 */
module Workspaces {
  import opened Outcomes
  import opened Config
  import opened Snapshots
  import opened Seqs

  /** The Hugo workspace: top-level directories with the files below them,
      and whether the theme tree and `config.yaml` have been installed. */
  datatype Workspace = Workspace(dirs: map<string, set<string>>, themeInstalled: bool, configInstalled: bool)

  datatype Assembly = Assembly(ws: Workspace, outcome: Outcome)

  /** The only template key the builder supports. */
  const SupportedTemplate: string := "gymnastics"

  function DirFiles(ws: Workspace, d: string): set<string> {
    if d in ws.dirs then ws.dirs[d] else {}
  }

  /** The snapshot holds `d` as a plain file: `copytree` refuses it. */
  predicate FileInPlaceOfDir(snap: Tree, d: string) {
    d !in snap.dirs && d in snap.files
  }

  /** One iteration of the copy loop: `copytree(..., dirs_exist_ok=True)` when
      the snapshot directory exists, `mkdir(exist_ok=True)` when it does not. */
  function CopyTop(snap: Tree, ws: Workspace, d: string): (r: Assembly)
    ensures r.outcome.Fail? <==> FileInPlaceOfDir(snap, d)
    ensures r.outcome.Fail? ==> r == Assembly(ws, Fail(NotADirectory(d)))
    ensures r.outcome.Pass? ==> r.ws == ws.(dirs := ws.dirs[d := DirFiles(ws, d) + FilesIn(snap, d)])
  {
    if d in snap.dirs then
      Assembly(ws.(dirs := ws.dirs[d := DirFiles(ws, d) + snap.dirs[d]]), Pass)
    else if d in snap.files then
      Assembly(ws, Fail(NotADirectory(d)))
    else
      assert DirFiles(ws, d) + FilesIn(snap, d) == DirFiles(ws, d);
      Assembly(ws.(dirs := ws.dirs[d := DirFiles(ws, d)]), Pass)
  }

  /** How many of `tops` the copy loop gets through before a plain file stops it. */
  function GoodPrefix(snap: Tree, tops: seq<string>): (n: nat)
    ensures n <= |tops|
    ensures forall i :: 0 <= i < n ==> !FileInPlaceOfDir(snap, tops[i])
    ensures n < |tops| ==> FileInPlaceOfDir(snap, tops[n])
    decreases |tops|
  {
    if tops == [] || FileInPlaceOfDir(snap, tops[0]) then 0
    else 1 + GoodPrefix(snap, tops[1..])
  }

  /** The names listed in `s`. */
  function Members(s: seq<string>): (r: set<string>)
    ensures forall d :: d in r <==> d in s
  {
    set d | d in s
  }

  /** `after` is `before` with the snapshot's files of every directory in
      `done` merged in, and nothing else changed. */
  predicate MergedWith(after: Workspace, before: Workspace, snap: Tree, done: seq<string>) {
    && after.dirs.Keys == before.dirs.Keys + Members(done)
    && (forall d :: d in after.dirs ==>
          after.dirs[d] == if d in done then DirFiles(before, d) + FilesIn(snap, d) else before.dirs[d])
    && after.themeInstalled == before.themeInstalled
    && after.configInstalled == before.configInstalled
  }

  /** None of content, data and static is a plain file in the snapshot. */
  predicate CopiesSucceed(snap: Tree) {
    forall d :: d in RequiredDirs ==> !FileInPlaceOfDir(snap, d)
  }

  /** The copy loop over `tops`, stopping at the first failure. */
  function CopyTops(snap: Tree, ws: Workspace, tops: seq<string>): (r: Assembly)
    ensures r.outcome.Pass? <==> GoodPrefix(snap, tops) == |tops|
    ensures r.outcome.Fail? ==> r.outcome == Fail(NotADirectory(tops[GoodPrefix(snap, tops)]))
    ensures MergedWith(r.ws, ws, snap, tops[..GoodPrefix(snap, tops)])
    decreases |tops|
  {
    if tops == [] then Assembly(ws, Pass)
    else
      var step := CopyTop(snap, ws, tops[0]);
      if step.outcome.Fail? then
        assert tops[..0] == [];
        step
      else
        var rest := CopyTops(snap, step.ws, tops[1..]);
        var n := GoodPrefix(snap, tops[1..]);
        PrefixOfTail(tops, n);
        MergedAfterStep(ws, step.ws, rest.ws, snap, tops[0], tops[1..][..n]);
        rest
  }

  /** One merged directory followed by a merge of `done` is a merge of both. */
  lemma MergedAfterStep(ws: Workspace, mid: Workspace, after: Workspace, snap: Tree, d: string, done: seq<string>)
    requires mid == ws.(dirs := ws.dirs[d := DirFiles(ws, d) + FilesIn(snap, d)])
    requires MergedWith(after, mid, snap, done)
    ensures MergedWith(after, ws, snap, [d] + done)
  {
    assert Members([d] + done) == {d} + Members(done);
    forall e | e in after.dirs
      ensures after.dirs[e] == if e in [d] + done then DirFiles(ws, e) + FilesIn(snap, e) else ws.dirs[e]
    {
      if e == d {
        assert DirFiles(mid, e) == DirFiles(ws, e) + FilesIn(snap, e);
      }
    }
  }

  /** The copy loop is idempotent: `dirs_exist_ok` merges leave nothing new
      to add on a second pass over a workspace holding the first pass's
      directories, and the second pass stops where the first one did. */
  lemma CopyTopsIdempotent(snap: Tree, ws: Workspace, ws2: Workspace, tops: seq<string>)
    requires ws2.dirs == CopyTops(snap, ws, tops).ws.dirs
    ensures CopyTops(snap, ws2, tops) == Assembly(ws2, CopyTops(snap, ws, tops).outcome)
  {
    var once := CopyTops(snap, ws, tops);
    var twice := CopyTops(snap, ws2, tops);
    var done := tops[..GoodPrefix(snap, tops)];
    MergeAbsorbs(ws, once.ws, ws2, twice.ws, snap, done);
  }

  /** Merging the same directories a second time adds nothing. */
  lemma MergeAbsorbs(ws: Workspace, once: Workspace, ws2: Workspace, twice: Workspace,
                     snap: Tree, done: seq<string>)
    requires MergedWith(once, ws, snap, done) && ws2.dirs == once.dirs
    requires MergedWith(twice, ws2, snap, done)
    ensures twice.dirs == ws2.dirs
  {
    assert twice.dirs.Keys == ws2.dirs.Keys;
    forall d | d in twice.dirs
      ensures twice.dirs[d] == ws2.dirs[d]
    {
      if d in done {
        assert ws2.dirs[d] == DirFiles(ws, d) + FilesIn(snap, d);
      }
    }
  }

  lemma AllGood(snap: Tree, tops: seq<string>)
    ensures GoodPrefix(snap, tops) == |tops| <==> forall d :: d in tops ==> !FileInPlaceOfDir(snap, d)
  {
    var n := GoodPrefix(snap, tops);
    if n == |tops| {
      assert tops[..n] == tops;
    }
  }

  /** The copy loop over content, data and static, summarised. */
  lemma RequiredCopies(snap: Tree, ws: Workspace)
    ensures var c := CopyTops(snap, ws, RequiredDirs);
      && (c.outcome.Pass? <==> CopiesSucceed(snap))
      && (CopiesSucceed(snap) ==>
            forall d :: d in RequiredDirs ==> d in c.ws.dirs && c.ws.dirs[d] == DirFiles(ws, d) + FilesIn(snap, d))
      && (c.outcome.Fail? ==>
            && c.outcome.error.NotADirectory?
            && c.outcome.error.name in RequiredDirs && FileInPlaceOfDir(snap, c.outcome.error.name))
      && (forall d :: d in ws.dirs && d !in RequiredDirs ==> d in c.ws.dirs && c.ws.dirs[d] == ws.dirs[d])
      && c.ws.themeInstalled == ws.themeInstalled && c.ws.configInstalled == ws.configInstalled
  {
    var c := CopyTops(snap, ws, RequiredDirs);
    var n := GoodPrefix(snap, RequiredDirs);
    AllGood(snap, RequiredDirs);
    if n == |RequiredDirs| {
      WholePrefix(RequiredDirs, n);
    }
    forall d | d in ws.dirs && d !in RequiredDirs
      ensures d in c.ws.dirs && c.ws.dirs[d] == ws.dirs[d]
    {
      assert d !in RequiredDirs[..n];
    }
  }

  /** `assemble_workspace`: `themeCopy` and `configCopy` are what copying the
      theme tree and `config.yaml` yield. */
  function Assemble(job: Job, snap: Tree, ws: Workspace, themeCopy: Outcome, configCopy: Outcome): (r: Assembly)
    ensures r.outcome.Pass? <==>
      && CopiesSucceed(snap)
      && job.templateKey == SupportedTemplate && themeCopy.Pass? && configCopy.Pass?
    ensures CopiesSucceed(snap) ==>
      forall d :: d in RequiredDirs ==> d in r.ws.dirs && r.ws.dirs[d] == DirFiles(ws, d) + FilesIn(snap, d)
    ensures CopiesSucceed(snap) && job.templateKey != SupportedTemplate
      ==> r.outcome == Fail(UnsupportedTemplate(job.templateKey))
    ensures CopiesSucceed(snap) && job.templateKey == SupportedTemplate && themeCopy.Fail?
      ==> r.outcome == themeCopy
    ensures CopiesSucceed(snap) && job.templateKey == SupportedTemplate && themeCopy.Pass? && configCopy.Fail?
      ==> r.outcome == configCopy
    ensures r.ws.themeInstalled <==> (ws.themeInstalled ||
      (CopiesSucceed(snap) && job.templateKey == SupportedTemplate && themeCopy.Pass?))
    ensures r.ws.configInstalled <==> ws.configInstalled || r.outcome.Pass?
    ensures !CopiesSucceed(snap) ==>
      && r.outcome.Fail? && r.outcome.error.NotADirectory?
      && r.outcome.error.name in RequiredDirs && FileInPlaceOfDir(snap, r.outcome.error.name)
    ensures forall d :: d in ws.dirs && d !in RequiredDirs ==> d in r.ws.dirs && r.ws.dirs[d] == ws.dirs[d]
  {
    var copied := CopyTops(snap, ws, RequiredDirs);
    RequiredCopies(snap, ws);
    if copied.outcome.Fail? then copied
    else if job.templateKey != SupportedTemplate then
      Assembly(copied.ws, Fail(UnsupportedTemplate(job.templateKey)))
    else if themeCopy.Fail? then
      Assembly(copied.ws, themeCopy)
    else
      var themed := copied.ws.(themeInstalled := true);
      if configCopy.Fail? then Assembly(themed, configCopy)
      else Assembly(themed.(configInstalled := true), Pass)
  }

  /** Re-running the assembly over its own result changes nothing. */
  lemma AssembleIdempotent(job: Job, snap: Tree, ws: Workspace, themeCopy: Outcome, configCopy: Outcome)
    ensures var once := Assemble(job, snap, ws, themeCopy, configCopy);
      Assemble(job, snap, once.ws, themeCopy, configCopy) == once
  {
    var once := Assemble(job, snap, ws, themeCopy, configCopy);
    var copied := CopyTops(snap, ws, RequiredDirs);
    assert once.ws.dirs == copied.ws.dirs;
    CopyTopsIdempotent(snap, ws, once.ws, RequiredDirs);
  }

  /** A template other than gymnastics is refused after the copies, and the
      theme and configuration are not installed. */
  lemma UnsupportedTemplateAfterCopies(job: Job, snap: Tree, themeCopy: Outcome, configCopy: Outcome)
    requires CopiesSucceed(snap) && job.templateKey != SupportedTemplate
    ensures var r := Assemble(job, snap, Workspace(map[], false, false), themeCopy, configCopy);
      && r.outcome == Fail(UnsupportedTemplate(job.templateKey))
      && r.ws.dirs.Keys == Members(RequiredDirs)
      && (forall d :: d in RequiredDirs ==> r.ws.dirs[d] == FilesIn(snap, d))
      && !r.ws.themeInstalled && !r.ws.configInstalled
  {
    var empty := Workspace(map[], false, false);
    TemplateRefusedAfterCopies(job, snap, empty, themeCopy, configCopy);
    CopiesIntoEmpty(snap);
  }

  lemma TemplateRefusedAfterCopies(job: Job, snap: Tree, ws: Workspace, themeCopy: Outcome, configCopy: Outcome)
    requires CopiesSucceed(snap) && job.templateKey != SupportedTemplate
    ensures Assemble(job, snap, ws, themeCopy, configCopy)
         == Assembly(CopyTops(snap, ws, RequiredDirs).ws, Fail(UnsupportedTemplate(job.templateKey)))
  {
    RequiredCopies(snap, ws);
  }

  /** A copy loop that meets no plain file merges every directory it names. */
  lemma CopiesAll(snap: Tree, ws: Workspace, tops: seq<string>)
    requires forall d :: d in tops ==> !FileInPlaceOfDir(snap, d)
    ensures MergedWith(CopyTops(snap, ws, tops).ws, ws, snap, tops)
  {
    AllGood(snap, tops);
    WholePrefix(tops, GoodPrefix(snap, tops));
  }

  /** Copying into an empty workspace creates exactly the three directories. */
  lemma CopiesIntoEmpty(snap: Tree)
    requires CopiesSucceed(snap)
    ensures var c := CopyTops(snap, Workspace(map[], false, false), RequiredDirs);
      && c.ws.dirs.Keys == Members(RequiredDirs)
      && (forall d :: d in RequiredDirs ==> c.ws.dirs[d] == FilesIn(snap, d))
      && !c.ws.themeInstalled && !c.ws.configInstalled
  {
    var empty := Workspace(map[], false, false);
    CopiesAll(snap, empty, RequiredDirs);
    var c := CopyTops(snap, empty, RequiredDirs);
    assert c.ws.dirs.Keys == {} + Members(RequiredDirs);
  }
}
