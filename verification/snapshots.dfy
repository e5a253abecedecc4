/**
 The snapshot acquirer. `download_snapshot` turns the listed object names
 into placements under the staging directory; the staged tree records,
 per top-level directory, the files below it. `validate_snapshot_layout`
 and `load_manifest` then read that tree.
 */
module Snapshots {
  import opened Strings
  import opened Seqs
  import opened Json
  import opened Outcomes
  import opened GsUri

  /** What the download loop does with one object: create a directory for a
      name ending in '/', otherwise fetch the object to its relative path. */
  datatype Placement = MakeDir(rel: string) | Fetch(name: string, rel: string)

  /** `Path(name).relative_to(prefix)` succeeds for every listed name. */
  predicate Relative(name: string, prefix: string) {
    HasPrefix(name, prefix + "/")
  }

  function RelPath(name: string, prefix: string): string
    requires Relative(name, prefix)
  {
    StripTrailingSlashes(name[|prefix| + 1..])
  }

  function PlacementOf(name: string, prefix: string): Placement
    requires Relative(name, prefix)
  {
    if EndsWithSlash(name) then MakeDir(RelPath(name, prefix)) else Fetch(name, RelPath(name, prefix))
  }

  /** `p` is where `name` lands: destination / (name relative to prefix). */
  predicate Mirrors(name: string, prefix: string, p: Placement) {
    && (p.MakeDir? <==> EndsWithSlash(name))
    && (p.Fetch? ==> p.name == name)
    && !EndsWithSlash(p.rel)
    && HasPrefix(name, prefix + "/" + p.rel)
    && AllSlashes(name[|prefix + "/" + p.rel|..])
  }

  lemma PlacementMirrors(name: string, prefix: string)
    requires Relative(name, prefix)
    ensures Mirrors(name, prefix, PlacementOf(name, prefix))
  {
    var tail := name[|prefix| + 1..];
    var rel := RelPath(name, prefix);
    var head := prefix + "/" + rel;
    assert name == prefix + "/" + tail;
    assert tail == rel + tail[|rel|..];
    assert name == head + tail[|rel|..];
    assert name[..|head|] == head;
    assert name[|head|..] == tail[|rel|..];
  }

  /** `p` needs `d` to be a directory: `d` is the directory it creates or
      one of the parents the loop creates for it. */
  predicate NeedsDir(p: Placement, d: string) {
    match p
    case MakeDir(rel) => rel == d || HasPrefix(rel, d + "/")
    case Fetch(_, rel) => HasPrefix(rel, d + "/")
  }

  /** One of `p` and `q` is a file at a path the other needs as a directory. */
  predicate Clash(p: Placement, q: Placement) {
    (p.Fetch? && NeedsDir(q, p.rel)) || (q.Fetch? && NeedsDir(p, q.rel))
  }

  /** One of the first `j` entries of the listing clashes with `names[k]`. */
  predicate ClashesBefore(names: seq<string>, j: nat, k: nat, prefix: string)
    requires j <= k < |names| && Relative(names[k], prefix)
    decreases j
  {
    && j > 0
    && ((Relative(names[j - 1], prefix) && Clash(PlacementOf(names[j - 1], prefix), PlacementOf(names[k], prefix)))
        || ClashesBefore(names, j - 1, k, prefix))
  }

  /** No entry before `j` clashes with `names[k]`, read entry by entry. */
  lemma {:induction false} NoClashBefore(names: seq<string>, j: nat, k: nat, prefix: string)
    requires j <= k < |names| && Relative(names[k], prefix)
    ensures !ClashesBefore(names, j, k, prefix) <==>
      forall i :: 0 <= i < j && Relative(names[i], prefix) ==>
        !Clash(PlacementOf(names[i], prefix), PlacementOf(names[k], prefix))
    decreases j
  {
    if j > 0 {
      NoClashBefore(names, j - 1, k, prefix);
    }
  }

  /** The fault the loop raises at `names[k]`, if any: a name outside the
      prefix; a path already taken by an earlier entry of the other kind
      (`mkdir` on a file, or a download onto a directory); or a file whose
      download fails (`failures` holds those outcomes). */
  function FaultAt(names: seq<string>, k: nat, prefix: string, failures: map<string, Fault>): Option<Fault>
    requires k < |names|
  {
    var name := names[k];
    if !Relative(name, prefix) then Some(NotRelative(name, prefix))
    else if ClashesBefore(names, k, k, prefix) then Some(PathClash(name))
    else if !EndsWithSlash(name) && name in failures then Some(failures[name])
    else None
  }

  /** The loop raises `f` at index `k`: every earlier name went through. */
  predicate FirstFault(names: seq<string>, prefix: string, failures: map<string, Fault>, k: nat, f: Fault)
    requires k < |names|
  {
    FaultAt(names, k, prefix, failures) == Some(f)
    && forall j :: 0 <= j < k ==> FaultAt(names, j, prefix, failures).None?
  }

  /** The download loop from `names[k]` on, in listing order. */
  function PlaceFrom(names: seq<string>, k: nat, prefix: string, failures: map<string, Fault>): (r: Result<seq<Placement>>)
    requires k <= |names|
    ensures r.Ok? <==> forall i :: k <= i < |names| ==> FaultAt(names, i, prefix, failures).None?
    ensures r.Ok? ==> |r.value| == |names| - k
    ensures r.Ok? ==> forall i :: k <= i < |names| ==> Mirrors(names[i], prefix, r.value[i - k])
    ensures r.Err? ==> exists i :: k <= i < |names| && FaultAt(names, i, prefix, failures) == Some(r.error)
                                   && forall j :: k <= j < i ==> FaultAt(names, j, prefix, failures).None?
    decreases |names| - k
  {
    if k == |names| then Ok([])
    else
      var here := FaultAt(names, k, prefix, failures);
      if here.Some? then Err(here.value)
      else
        var rest := PlaceFrom(names, k + 1, prefix, failures);
        if rest.Err? then Err(rest.error)
        else
          var ps := [PlacementOf(names[k], prefix)] + rest.value;
          PrependMirrors(names, k, prefix, rest.value);
          Ok(ps)
  }

  lemma PrependMirrors(names: seq<string>, k: nat, prefix: string, rest: seq<Placement>)
    requires k < |names| && Relative(names[k], prefix) && |rest| == |names| - k - 1
    requires forall i :: k + 1 <= i < |names| ==> Mirrors(names[i], prefix, rest[i - (k + 1)])
    ensures var ps := [PlacementOf(names[k], prefix)] + rest;
      forall i :: k <= i < |names| ==> Mirrors(names[i], prefix, ps[i - k])
  {
    PlacementMirrors(names[k], prefix);
    var ps := [PlacementOf(names[k], prefix)] + rest;
    assert forall i :: 1 <= i < |ps| ==> ps[i] == rest[i - 1];
  }

  /** The download loop over the listed names, in listing order. */
  function PlaceAll(names: seq<string>, prefix: string, failures: map<string, Fault>): (r: Result<seq<Placement>>)
    ensures r.Ok? <==> forall i :: 0 <= i < |names| ==> FaultAt(names, i, prefix, failures).None?
    ensures r.Ok? ==> |r.value| == |names|
    ensures r.Ok? ==> forall i :: 0 <= i < |names| ==> Mirrors(names[i], prefix, r.value[i])
    ensures r.Err? ==> exists k :: 0 <= k < |names| && FirstFault(names, prefix, failures, k, r.error)
  {
    var r := PlaceFrom(names, 0, prefix, failures);
    if r.Err? then
      var k :| 0 <= k < |names| && FaultAt(names, k, prefix, failures) == Some(r.error)
               && forall j :: 0 <= j < k ==> FaultAt(names, j, prefix, failures).None?;
      assert FirstFault(names, prefix, failures, k, r.error);
      r
    else r
  }

  /** A successful loop placed every name where `PlacementOf` says. */
  lemma PlacedAsMapped(names: seq<string>, prefix: string, failures: map<string, Fault>, i: nat)
    requires PlaceAll(names, prefix, failures).Ok? && i < |names|
    ensures Relative(names[i], prefix)
    ensures PlaceAll(names, prefix, failures).value[i] == PlacementOf(names[i], prefix)
  {
    assert FaultAt(names, i, prefix, failures).None?;
    PlacementMirrors(names[i], prefix);
    MirrorsUnique(names[i], prefix, PlaceAll(names, prefix, failures).value[i], PlacementOf(names[i], prefix));
  }

  /** No two placements of a successful loop claim one path as a file and as a directory. */
  lemma PlacedWithoutClash(names: seq<string>, prefix: string, failures: map<string, Fault>)
    requires PlaceAll(names, prefix, failures).Ok?
    ensures var ps := PlaceAll(names, prefix, failures).value;
      forall i, j :: 0 <= j < i < |ps| ==> !Clash(ps[j], ps[i])
  {
    var ps := PlaceAll(names, prefix, failures).value;
    forall i, j | 0 <= j < i < |ps|
      ensures !Clash(ps[j], ps[i])
    {
      PlacedAsMapped(names, prefix, failures, i);
      PlacedAsMapped(names, prefix, failures, j);
      assert FaultAt(names, i, prefix, failures).None?;
      NoClashBefore(names, i, i, prefix);
    }
  }

  /** A file object followed by a directory object of the same name fails at
      the directory, whatever the downloads yield. */
  lemma FileThenDirectoryClashes(failures: map<string, Fault>)
    requires "p/content" !in failures
    ensures PlaceAll(["p/content", "p/content/"], "p", failures) == Err(PathClash("p/content/"))
  {
    var names := ["p/content", "p/content/"];
    assert HasPrefix(names[0], "p/") && HasPrefix(names[1], "p/");
    assert names[0][2..] == "content" && names[1][2..] == "content/";
    assert StripTrailingSlashes("content/") == StripTrailingSlashes("content") == "content";
    assert PlacementOf(names[0], "p") == Fetch("p/content", "content");
    assert PlacementOf(names[1], "p") == MakeDir("content");
    assert FaultAt(names, 0, "p", failures).None?;
    assert Clash(PlacementOf(names[0], "p"), PlacementOf(names[1], "p"));
    assert FaultAt(names, 1, "p", failures) == Some(PathClash("p/content/"));
  }

  // ---------------------------------------------------------------------
  // The staged tree.

  /** Top-level directories with the files below them (paths relative to
      the directory), and the files directly in the staging root. */
  datatype Tree = Tree(dirs: map<string, set<string>>, files: set<string>)

  function Top(rel: string): string {
    rel[..FirstSlash(rel)]
  }

  predicate Nested(rel: string) {
    FirstSlash(rel) < |rel|
  }

  function Below(rel: string): string
    requires Nested(rel)
  {
    rel[FirstSlash(rel) + 1..]
  }

  /** `p` creates the top-level directory `d` (mkdir with parents). */
  predicate OpensDir(p: Placement, d: string) {
    Top(p.rel) == d && (if p.MakeDir? then p.rel != "" else Nested(p.rel))
  }

  predicate PutsFile(p: Placement, d: string, f: string) {
    p.Fetch? && Nested(p.rel) && Top(p.rel) == d && Below(p.rel) == f
  }

  predicate PutsRootFile(p: Placement, f: string) {
    p.Fetch? && !Nested(p.rel) && p.rel == f
  }

  function FilesIn(t: Tree, d: string): set<string> {
    if d in t.dirs then t.dirs[d] else {}
  }

  function Place(t: Tree, p: Placement): Tree {
    match p
    case MakeDir(rel) =>
      if rel == "" then t else t.(dirs := t.dirs[Top(rel) := FilesIn(t, Top(rel))])
    case Fetch(_, rel) =>
      if Nested(rel) then t.(dirs := t.dirs[Top(rel) := FilesIn(t, Top(rel)) + {Below(rel)}])
      else t.(files := t.files + {rel})
  }

  predicate SomeOpens(ps: seq<Placement>, d: string) {
    exists i :: 0 <= i < |ps| && OpensDir(ps[i], d)
  }

  predicate SomePuts(ps: seq<Placement>, d: string, f: string) {
    exists i :: 0 <= i < |ps| && PutsFile(ps[i], d, f)
  }

  predicate SomePutsRoot(ps: seq<Placement>, f: string) {
    exists i :: 0 <= i < |ps| && PutsRootFile(ps[i], f)
  }

  /** The staging root after the placements, starting from the cleared directory. */
  function TreeOf(ps: seq<Placement>): (t: Tree)
    ensures forall d :: d in t.dirs <==> SomeOpens(ps, d)
    ensures forall d, f :: d in t.dirs ==> (f in t.dirs[d] <==> SomePuts(ps, d, f))
    ensures forall f :: f in t.files <==> SomePutsRoot(ps, f)
    decreases |ps|
  {
    if ps == [] then Tree(map[], {})
    else
      var init := ps[..|ps| - 1];
      var last := ps[|ps| - 1];
      var t0 := TreeOf(init);
      var t := Place(t0, last);
      PlaceSpec(t0, last);
      SplitLast(ps);
      t
  }

  /** One placement adds exactly what it creates. */
  lemma PlaceSpec(t: Tree, p: Placement)
    ensures forall d :: d in Place(t, p).dirs <==> d in t.dirs || OpensDir(p, d)
    ensures forall d, f :: d in Place(t, p).dirs ==>
      (f in Place(t, p).dirs[d] <==> (d in t.dirs && f in t.dirs[d]) || PutsFile(p, d, f))
    ensures forall f :: f in Place(t, p).files <==> f in t.files || PutsRootFile(p, f)
  {
  }

  lemma SplitLast(ps: seq<Placement>)
    requires ps != []
    ensures var init, last := ps[..|ps| - 1], ps[|ps| - 1];
      && (forall d :: SomeOpens(ps, d) <==> SomeOpens(init, d) || OpensDir(last, d))
      && (forall d, f :: SomePuts(ps, d, f) <==> SomePuts(init, d, f) || PutsFile(last, d, f))
      && (forall f :: SomePutsRoot(ps, f) <==> SomePutsRoot(init, f) || PutsRootFile(last, f))
  {
    var init, last := ps[..|ps| - 1], ps[|ps| - 1];
    assert forall i :: 0 <= i < |init| ==> init[i] == ps[i];
    forall d
      ensures SomeOpens(ps, d) ==> SomeOpens(init, d) || OpensDir(last, d)
    {
      if SomeOpens(ps, d) {
        var i :| 0 <= i < |ps| && OpensDir(ps[i], d);
        if i < |init| { assert OpensDir(init[i], d); }
      }
    }
    forall d, f
      ensures SomePuts(ps, d, f) ==> SomePuts(init, d, f) || PutsFile(last, d, f)
    {
      if SomePuts(ps, d, f) {
        var i :| 0 <= i < |ps| && PutsFile(ps[i], d, f);
        if i < |init| { assert PutsFile(init[i], d, f); }
      }
    }
    forall f
      ensures SomePutsRoot(ps, f) ==> SomePutsRoot(init, f) || PutsRootFile(last, f)
    {
      if SomePutsRoot(ps, f) {
        var i :| 0 <= i < |ps| && PutsRootFile(ps[i], f);
        if i < |init| { assert PutsRootFile(init[i], f); }
      }
    }
    assert forall d :: OpensDir(last, d) ==> SomeOpens(ps, d) by {
      forall d | OpensDir(last, d) ensures SomeOpens(ps, d) { assert OpensDir(ps[|ps| - 1], d); }
    }
  }

  // ---------------------------------------------------------------------
  // download_snapshot, validate_snapshot_layout, load_manifest.

  /** Neither kind of entry sits where the tree holds the other: no file in
      the staging root shares its name with a top-level directory, and no
      file below a directory is the parent of another. */
  predicate Consistent(t: Tree) {
    && (forall f :: f in t.files ==> f !in t.dirs)
    && (forall d, f, g :: d in t.dirs && f in t.dirs[d] && g in t.dirs[d] ==> !HasPrefix(g, f + "/"))
  }

  /** A placement that creates top-level directory `d` needs `d` as a directory. */
  lemma OpenerNeedsDir(q: Placement, d: string)
    ensures OpensDir(q, d) ==> NeedsDir(q, d)
  {
    if OpensDir(q, d) {
      var n := FirstSlash(q.rel);
      if n < |q.rel| {
        assert q.rel[..n + 1] == q.rel[..n] + [q.rel[n]];
        assert q.rel[..|d + "/"|] == d + "/";
      }
    }
  }

  lemma NestedSplits(rel: string)
    requires Nested(rel)
    ensures rel == Top(rel) + "/" + Below(rel)
  {
    SplitAtSlash(rel, FirstSlash(rel));
  }

  lemma JoinExtends(d: string, f: string, g: string)
    requires HasPrefix(g, f + "/")
    ensures HasPrefix(d + "/" + g, (d + "/" + f) + "/")
  {
    var rest := g[|f| + 1..];
    assert g == (f + "/") + rest;
    assert d + "/" + g == ((d + "/" + f) + "/") + rest;
    ConcatSplits((d + "/" + f) + "/", rest);
  }

  /** A file below `d` whose path continues the path of another file below
      `d` needs that file's path as a directory. */
  lemma FileNeedsDir(p: Placement, q: Placement, d: string, f: string, g: string)
    ensures PutsFile(p, d, f) && PutsFile(q, d, g) && HasPrefix(g, f + "/") ==> NeedsDir(q, p.rel)
  {
    if PutsFile(p, d, f) && PutsFile(q, d, g) && HasPrefix(g, f + "/") {
      NestedSplits(p.rel);
      NestedSplits(q.rel);
      JoinExtends(d, f, g);
    }
  }

  /** Placements no two of which clash stage a consistent tree. */
  lemma NoClashTreeConsistent(ps: seq<Placement>)
    requires forall i, j :: 0 <= j < i < |ps| ==> !Clash(ps[j], ps[i])
    ensures Consistent(TreeOf(ps))
  {
    var t := TreeOf(ps);
    assert forall i, j :: 0 <= i < |ps| && 0 <= j < |ps| && i != j ==> !Clash(ps[i], ps[j]);
    forall f | f in t.files
      ensures f !in t.dirs
    {
      var i :| 0 <= i < |ps| && PutsRootFile(ps[i], f);
      forall j | 0 <= j < |ps|
        ensures !OpensDir(ps[j], f)
      {
        OpenerNeedsDir(ps[j], f);
      }
    }
    forall d, f, g | d in t.dirs && f in t.dirs[d] && HasPrefix(g, f + "/")
      ensures g !in t.dirs[d]
    {
      var i :| 0 <= i < |ps| && PutsFile(ps[i], d, f);
      forall k | 0 <= k < |ps|
        ensures !PutsFile(ps[k], d, g)
      {
        FileNeedsDir(ps[i], ps[k], d, f, g);
      }
    }
  }

  /** `download_snapshot`: `listing` is what the object store lists under
      prefix + "/" (or its failure), `failures` the downloads that fail. */
  function DownloadSnapshot(uri: string, listing: Result<seq<string>>, failures: map<string, Fault>): (r: Result<Tree>)
    ensures ParseGsUri(uri).Err? ==> r == Err(ParseGsUri(uri).error)
    ensures ParseGsUri(uri).Ok? && listing.Err? ==> r == Err(listing.error)
    ensures ParseGsUri(uri).Ok? && listing == Ok([]) ==> r == Err(NoSnapshotObjects(uri))
    ensures r.Ok? ==> ParseGsUri(uri).Ok? && listing.Ok? && listing.value != []
    ensures ParseGsUri(uri).Ok? && listing.Ok? && listing.value != [] ==>
      (r.Ok? <==> forall i :: 0 <= i < |listing.value| ==>
        FaultAt(listing.value, i, ParseGsUri(uri).value.1, failures).None?)
    ensures ParseGsUri(uri).Ok? && listing.Ok? && listing.value != [] && r.Err? ==>
      exists k :: 0 <= k < |listing.value| && FirstFault(listing.value, ParseGsUri(uri).value.1, failures, k, r.error)
    ensures r.Ok? ==> Consistent(r.value)
  {
    match ParseGsUri(uri)
    case Err(f) => Err(f)
    case Ok((_, prefix)) =>
      match listing
      case Err(f) => Err(f)
      case Ok(names) =>
        if names == [] then Err(NoSnapshotObjects(uri))
        else
          match PlaceAll(names, prefix, failures)
          case Err(f) => Err(f)
          case Ok(ps) =>
            PlacedWithoutClash(names, prefix, failures);
            NoClashTreeConsistent(ps);
            Ok(TreeOf(ps))
  }

  /** Every listed file object is staged at its path relative to the prefix. */
  lemma FetchedFilesAreStaged(names: seq<string>, prefix: string, failures: map<string, Fault>, i: nat)
    requires PlaceAll(names, prefix, failures).Ok?
    requires i < |names| && !EndsWithSlash(names[i])
    ensures Relative(names[i], prefix)
    ensures var t := TreeOf(PlaceAll(names, prefix, failures).value);
      var rel := RelPath(names[i], prefix);
      if Nested(rel) then Top(rel) in t.dirs && Below(rel) in t.dirs[Top(rel)] else rel in t.files
  {
    var ps := PlaceAll(names, prefix, failures).value;
    PlacedAsMapped(names, prefix, failures, i);
    var rel := RelPath(names[i], prefix);
    if Nested(rel) {
      assert OpensDir(ps[i], Top(rel));
      assert PutsFile(ps[i], Top(rel), Below(rel));
    } else {
      assert PutsRootFile(ps[i], rel);
    }
  }

  lemma LongerHeadEndsWithSlash(name: string, h1: string, h2: string)
    requires HasPrefix(name, h1) && AllSlashes(name[|h1|..])
    requires HasPrefix(name, h2) && |h1| < |h2|
    ensures h2[|h2| - 1] == '/'
  {
    assert h2[|h2| - 1] == name[|h2| - 1] == name[|h1|..][|h2| - 1 - |h1|];
  }

  /** The same, for the tree `download_snapshot` stages. */
  lemma DownloadedFilesAreStaged(uri: string, names: seq<string>, failures: map<string, Fault>, i: nat)
    requires DownloadSnapshot(uri, Ok(names), failures).Ok?
    requires i < |names| && !EndsWithSlash(names[i])
    ensures ParseGsUri(uri).Ok? && Relative(names[i], ParseGsUri(uri).value.1)
    ensures var t := DownloadSnapshot(uri, Ok(names), failures).value;
      var rel := RelPath(names[i], ParseGsUri(uri).value.1);
      if Nested(rel) then Top(rel) in t.dirs && Below(rel) in t.dirs[Top(rel)] else rel in t.files
  {
    var prefix := ParseGsUri(uri).value.1;
    assert DownloadSnapshot(uri, Ok(names), failures).value == TreeOf(PlaceAll(names, prefix, failures).value);
    FetchedFilesAreStaged(names, prefix, failures, i);
  }

  /** A name lands at one place only. */
  lemma MirrorsUnique(name: string, prefix: string, p: Placement, q: Placement)
    requires Mirrors(name, prefix, p) && Mirrors(name, prefix, q)
    ensures p == q
  {
    var hp, hq := prefix + "/" + p.rel, prefix + "/" + q.rel;
    if |p.rel| < |q.rel| {
      LongerHeadEndsWithSlash(name, hp, hq);
      assert false;
    } else if |q.rel| < |p.rel| {
      LongerHeadEndsWithSlash(name, hq, hp);
      assert false;
    }
    assert p.rel == name[|prefix| + 1..|hp|] == q.rel;
  }

  /** Directory objects are only created, never downloaded: a listing made
      only of names ending in '/' stages no file. */
  lemma DirectoryObjectsStageNoFiles(uri: string, names: seq<string>, failures: map<string, Fault>)
    requires DownloadSnapshot(uri, Ok(names), failures).Ok?
    requires forall i :: 0 <= i < |names| ==> EndsWithSlash(names[i])
    ensures var t := DownloadSnapshot(uri, Ok(names), failures).value;
      t.files == {} && forall d :: d in t.dirs ==> t.dirs[d] == {}
  {
    var prefix := ParseGsUri(uri).value.1;
    var ps := PlaceAll(names, prefix, failures).value;
    assert forall i :: 0 <= i < |ps| ==> Mirrors(names[i], prefix, ps[i]) && ps[i].MakeDir?;
  }

  const RequiredDirs: seq<string> := ["content", "data", "static"]

  /** `(snapshot_root / d).exists()` */
  predicate Present(t: Tree, d: string) {
    d in t.dirs || d in t.files
  }

  /** The regular files `rglob` finds below `d`. */
  function FileCount(t: Tree, d: string): nat {
    |FilesIn(t, d)|
  }

  predicate Usable(t: Tree, d: string) {
    Present(t, d) && FileCount(t, d) > 0
  }

  /** `validate_snapshot_layout`: missing directories first, then empty ones. */
  function ValidateLayout(t: Tree): (r: Outcome)
    ensures r.Pass? <==> forall d :: d in RequiredDirs ==> Usable(t, d)
    ensures (exists d :: d in RequiredDirs && !Present(t, d)) ==>
      && r.Fail? && r.error.MissingDirectories?
      && (forall d :: d in r.error.names <==> d in RequiredDirs && !Present(t, d))
      && Subsequence(r.error.names, RequiredDirs)
    ensures (forall d :: d in RequiredDirs ==> Present(t, d)) && r.Fail? ==>
      && r.error.EmptyDirectories?
      && (forall d :: d in r.error.names <==> d in RequiredDirs && FileCount(t, d) == 0)
      && Subsequence(r.error.names, RequiredDirs)
  {
    var missing := Select(RequiredDirs, d => !Present(t, d));
    if missing != [] then
      Fail(MissingDirectories(missing))
    else
      var empty := Select(RequiredDirs, d => FileCount(t, d) == 0);
      if empty != [] then
        assert empty[0] in empty;
        Fail(EmptyDirectories(empty))
      else
        assert forall d :: d in RequiredDirs ==> d !in missing && d !in empty;
        Pass
  }

  const ManifestName: string := "manifest.json"

  /** `load_manifest`: `parsed` is what reading and decoding the file yields. */
  function LoadManifest(t: Tree, parsed: Result<Value>): (r: Result<map<string, Value>>)
    ensures !Present(t, ManifestName) ==> r == Err(ManifestNotFound)
    ensures Present(t, ManifestName) && parsed.Err? ==> r == Err(parsed.error)
    ensures Present(t, ManifestName) && parsed.Ok? && !parsed.value.Obj? ==> r == Err(ManifestNotObject)
    ensures r.Ok? <==> Present(t, ManifestName) && parsed.Ok? && parsed.value.Obj?
    ensures r.Ok? ==> r.value == parsed.value.fields
  {
    if !Present(t, ManifestName) then Err(ManifestNotFound)
    else
      match parsed
      case Err(f) => Err(f)
      case Ok(v) => if v.Obj? then Ok(v.fields) else Err(ManifestNotObject)
  }
  /** A listing that holds `<prefix>/manifest.json` stages a manifest that
      `load_manifest` finds; it then loads exactly when the file decodes to
      an object. */
  lemma ListedManifestIsFound(uri: string, names: seq<string>, failures: map<string, Fault>, parsed: Result<Value>)
    requires DownloadSnapshot(uri, Ok(names), failures).Ok?
    requires ParseGsUri(uri).Ok? && ParseGsUri(uri).value.1 + "/" + ManifestName in names
    ensures var t := DownloadSnapshot(uri, Ok(names), failures).value;
      && Present(t, ManifestName)
      && (LoadManifest(t, parsed).Ok? <==> parsed.Ok? && parsed.value.Obj?)
  {
    var prefix := ParseGsUri(uri).value.1;
    var i :| 0 <= i < |names| && names[i] == prefix + "/" + ManifestName;
    ManifestAtRoot(prefix);
    DownloadedFilesAreStaged(uri, names, failures, i);
  }

  /** `<prefix>/manifest.json` lands in the staging root. */
  lemma ManifestAtRoot(prefix: string)
    ensures var name := prefix + "/" + ManifestName;
      && !EndsWithSlash(name) && Relative(name, prefix)
      && RelPath(name, prefix) == ManifestName && !Nested(ManifestName)
  {
    var name := prefix + "/" + ManifestName;
    ConcatSplits(prefix + "/", ManifestName);
    assert name[|prefix| + 1..] == ManifestName;
    assert NoSlash(ManifestName);
  }
}
