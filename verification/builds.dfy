/**
 One build, `_run_build`: validate the target, download and check the
 snapshot, assemble the workspace, run Hugo, then either copy the output
 locally (site "local") or deploy it to Firebase Hosting. The object store,
 the filesystem and the subprocesses are replaced by the outcomes they
 yield; the trace records which external effects were started.
 */
module Builds {
  import opened Json
  import opened Outcomes
  import opened Config
  import opened Targets
  import opened GsUri
  import opened Snapshots
  import opened Manifests
  import opened Workspaces

  /** The external effects of a build, in the order they are started. */
  datatype Effect =
    | SnapshotDownload(uri: string)
    | HugoRun
    | LocalExport(jobId: string)
    | HostingDeploy(site: Value, project: string)

  /** What the outside world yields to one build: the object listing and
      per-object download failures, the decoded manifest, the theme and
      config copies, the Hugo run, the local copy and the deploy. */
  datatype Steps = Steps(
    listing: Result<seq<string>>,
    failures: map<string, Fault>,
    manifestParse: Result<Value>,
    themeCopy: Outcome,
    configCopy: Outcome,
    hugo: Outcome,
    localCopy: Outcome,
    deploy: Outcome)

  /** The build's result (`Ok(true)` deployed, `Ok(false)` local) and the effects started. */
  datatype BuildRun = BuildRun(outcome: Result<bool>, effects: seq<Effect>)

  /** The staging workspace `_prepare_run_dirs` leaves: empty. */
  const FreshWorkspace: Workspace := Workspace(map[], false, false)

  /** The snapshot tree the download stages (meaningful when it succeeds). */
  function StagedTree(job: Job, rt: RuntimeConfig, steps: Steps): Result<Tree> {
    DownloadSnapshot(SnapshotUri(job, rt), steps.listing, steps.failures)
  }

  /** The staged snapshot passes the layout and manifest checks and the
      workspace assembles. */
  predicate SnapshotAccepted(job: Job, rt: RuntimeConfig, steps: Steps) {
    && StagedTree(job, rt, steps).Ok?
    && ValidateLayout(StagedTree(job, rt, steps).value).Pass?
    && LoadManifest(StagedTree(job, rt, steps).value, steps.manifestParse).Ok?
    && ValidateManifest(LoadManifest(StagedTree(job, rt, steps).value, steps.manifestParse).value, job).Pass?
    && Assemble(job, StagedTree(job, rt, steps).value, FreshWorkspace, steps.themeCopy, steps.configCopy).outcome.Pass?
  }

  /** Everything up to and including Hugo succeeds for this job. */
  predicate PreparedAndRendered(job: Job, rt: RuntimeConfig, steps: Steps) {
    ValidateBuildTarget(job.buildTarget, rt).Ok? && SnapshotAccepted(job, rt, steps) && steps.hugo.Pass?
  }

  /** The publishing step this job's site selects succeeds. */
  predicate Published(job: Job, rt: RuntimeConfig, steps: Steps)
    requires ValidateBuildTarget(job.buildTarget, rt).Ok?
  {
    if ValidateBuildTarget(job.buildTarget, rt).value.1 == LocalSite then steps.localCopy.Pass? else steps.deploy.Pass?
  }

  /** Download, layout check, manifest load and check, and assembly, in that
      order; the first failure is the build's error. */
  function Stage(job: Job, rt: RuntimeConfig, steps: Steps): (r: Outcome)
    ensures StagedTree(job, rt, steps).Ok? && ValidateLayout(StagedTree(job, rt, steps).value).Fail?
      ==> r == ValidateLayout(StagedTree(job, rt, steps).value)
    ensures StagedTree(job, rt, steps).Ok? && ValidateLayout(StagedTree(job, rt, steps).value).Pass?
      && LoadManifest(StagedTree(job, rt, steps).value, steps.manifestParse).Err?
      ==> r == Fail(LoadManifest(StagedTree(job, rt, steps).value, steps.manifestParse).error)
    ensures StagedTree(job, rt, steps).Ok? && ValidateLayout(StagedTree(job, rt, steps).value).Pass?
      && LoadManifest(StagedTree(job, rt, steps).value, steps.manifestParse).Ok?
      && ValidateManifest(LoadManifest(StagedTree(job, rt, steps).value, steps.manifestParse).value, job).Fail?
      ==> r == ValidateManifest(LoadManifest(StagedTree(job, rt, steps).value, steps.manifestParse).value, job)
    ensures SnapshotAccepted(job, rt, steps) ==> r.Pass?
    ensures StagedTree(job, rt, steps).Ok? && ValidateLayout(StagedTree(job, rt, steps).value).Pass?
      && LoadManifest(StagedTree(job, rt, steps).value, steps.manifestParse).Ok?
      && ValidateManifest(LoadManifest(StagedTree(job, rt, steps).value, steps.manifestParse).value, job).Pass?
      && r.Fail?
      ==> r == Assemble(job, StagedTree(job, rt, steps).value, FreshWorkspace, steps.themeCopy, steps.configCopy).outcome
  {
    match StagedTree(job, rt, steps)
    case Err(e) => Fail(e)
    case Ok(tree) =>
      var layout := ValidateLayout(tree);
      if layout.Fail? then layout
      else
        match LoadManifest(tree, steps.manifestParse)
        case Err(e) => Fail(e)
        case Ok(manifest) =>
          var checked := ValidateManifest(manifest, job);
          if checked.Fail? then checked
          else Assemble(job, tree, FreshWorkspace, steps.themeCopy, steps.configCopy).outcome
  }

  /** Staging passes exactly when every check accepts, and a failed download
      is the staging error. */
  lemma StageAcceptsExactly(job: Job, rt: RuntimeConfig, steps: Steps)
    ensures Stage(job, rt, steps).Pass? <==> SnapshotAccepted(job, rt, steps)
    ensures StagedTree(job, rt, steps).Err? ==> Stage(job, rt, steps) == Fail(StagedTree(job, rt, steps).error)
  {
  }

  /** The publishing effect a site selects. */
  function PublishEffect(job: Job, rt: RuntimeConfig, site: Value): Effect {
    if site == LocalSite then LocalExport(job.jobId) else HostingDeploy(site, rt.firebaseProject)
  }

  /** Hugo, then the local copy or the deploy. */
  function Render(job: Job, rt: RuntimeConfig, site: Value, steps: Steps, fetched: seq<Effect>): (r: BuildRun)
    ensures r.outcome.Ok? <==> steps.hugo.Pass? && (if site == LocalSite then steps.localCopy.Pass? else steps.deploy.Pass?)
    ensures r.outcome.Ok? ==> (r.outcome.value <==> site != LocalSite)
    ensures steps.hugo.Fail? ==> r == BuildRun(Err(steps.hugo.error), fetched + [HugoRun])
    ensures steps.hugo.Pass? ==> r.effects == fetched + [HugoRun, PublishEffect(job, rt, site)]
    ensures |r.effects| > |fetched| && r.effects[|fetched|] == HugoRun && r.effects[..|fetched|] == fetched
    ensures r.outcome.Err? && steps.hugo.Pass? ==>
      r.outcome.error == (if site == LocalSite then steps.localCopy.error else steps.deploy.error)
  {
    var rendered := fetched + [HugoRun];
    var effects := fetched + [HugoRun, PublishEffect(job, rt, site)];
    if steps.hugo.Fail? then BuildRun(Err(steps.hugo.error), rendered)
    else if site == LocalSite then
      if steps.localCopy.Fail? then BuildRun(Err(steps.localCopy.error), effects) else BuildRun(Ok(false), effects)
    else
      if steps.deploy.Fail? then BuildRun(Err(steps.deploy.error), effects) else BuildRun(Ok(true), effects)
  }

  /** `_run_build`. */
  function RunBuild(job: Job, rt: RuntimeConfig, steps: Steps): (r: BuildRun)
    ensures r.outcome.Ok? <==> PreparedAndRendered(job, rt, steps) && Published(job, rt, steps)
    ensures r.outcome.Ok? ==> (r.outcome.value <==> ValidateBuildTarget(job.buildTarget, rt).value.1 != LocalSite)
    ensures ValidateBuildTarget(job.buildTarget, rt).Err? ==>
      r == BuildRun(Err(ValidateBuildTarget(job.buildTarget, rt).error), [])
    ensures ValidateBuildTarget(job.buildTarget, rt).Ok? ==>
      1 <= |r.effects| <= 3 && r.effects[0] == SnapshotDownload(SnapshotUri(job, rt))
    ensures ValidateBuildTarget(job.buildTarget, rt).Ok? && Stage(job, rt, steps).Fail? ==>
      r == BuildRun(Err(Stage(job, rt, steps).error), [SnapshotDownload(SnapshotUri(job, rt))])
    ensures |r.effects| >= 2 <==> ValidateBuildTarget(job.buildTarget, rt).Ok? && SnapshotAccepted(job, rt, steps)
    ensures |r.effects| >= 2 ==> r.effects[1] == HugoRun
    ensures |r.effects| == 3 <==> PreparedAndRendered(job, rt, steps)
    ensures |r.effects| == 3 ==> r.effects[2] == PublishEffect(job, rt, ValidateBuildTarget(job.buildTarget, rt).value.1)
  {
    match ValidateBuildTarget(job.buildTarget, rt)
    case Err(e) => BuildRun(Err(e), [])
    case Ok(validated) =>
      var fetched := [SnapshotDownload(SnapshotUri(job, rt))];
      var staged := Stage(job, rt, steps);
      if staged.Fail? then BuildRun(Err(staged.error), fetched)
      else Render(job, rt, validated.1, steps, fetched)
  }

  /** A local site never reaches `deploy_hosting`, and a successful local
      build reports that nothing was deployed. */
  lemma LocalSiteNeverDeploys(job: Job, rt: RuntimeConfig, steps: Steps)
    requires job.buildTarget.Obj? && SiteOf(job.buildTarget.fields) == LocalSite
    ensures forall i :: 0 <= i < |RunBuild(job, rt, steps).effects| ==> !RunBuild(job, rt, steps).effects[i].HostingDeploy?
    ensures RunBuild(job, rt, steps).outcome.Ok? ==> RunBuild(job, rt, steps).outcome == Ok(false)
  {
    var r := RunBuild(job, rt, steps);
    var v := ValidateBuildTarget(job.buildTarget, rt);
    if v.Ok? {
      assert v.value.1 == LocalSite;
      assert PublishEffect(job, rt, v.value.1) == LocalExport(job.jobId);
      forall i | 0 <= i < |r.effects|
        ensures !r.effects[i].HostingDeploy?
      {
        assert i == 0 || i == 1 || i == 2;
      }
    }
  }

  /** A build that deploys validated a non-local target naming the runtime's project. */
  lemma DeployedTargetIsHosted(job: Job, rt: RuntimeConfig, steps: Steps)
    requires RunBuild(job, rt, steps).outcome == Ok(true)
    ensures job.buildTarget.Obj? && SiteOf(job.buildTarget.fields) != LocalSite
    ensures HostingProjectOf(job.buildTarget.fields) == Str(rt.firebaseProject)
    ensures ValidateBuildTarget(job.buildTarget, rt) == Ok((Str(rt.firebaseProject), SiteOf(job.buildTarget.fields)))
  {
  }

  /** A non-local build that succeeds downloaded, ran Hugo and deployed to the
      runtime's project, at the site the target names, in that order. */
  lemma HostedBuildDeploysToRuntimeProject(job: Job, rt: RuntimeConfig, steps: Steps)
    requires RunBuild(job, rt, steps).outcome == Ok(true)
    ensures RunBuild(job, rt, steps).effects
         == [SnapshotDownload(SnapshotUri(job, rt)), HugoRun, HostingDeploy(SiteOf(job.buildTarget.fields), rt.firebaseProject)]
  {
    DeployedTargetIsHosted(job, rt, steps);
    SuccessfulBuildRenders(job, rt, steps);
    RenderDeploys(job, rt, SiteOf(job.buildTarget.fields), steps, SnapshotDownload(SnapshotUri(job, rt)));
  }

  /** A successful build validated its target, staged its snapshot and rendered. */
  lemma SuccessfulBuildRenders(job: Job, rt: RuntimeConfig, steps: Steps)
    requires RunBuild(job, rt, steps).outcome.Ok?
    ensures ValidateBuildTarget(job.buildTarget, rt).Ok? && Stage(job, rt, steps).Pass?
    ensures RunBuild(job, rt, steps)
         == Render(job, rt, ValidateBuildTarget(job.buildTarget, rt).value.1, steps, [SnapshotDownload(SnapshotUri(job, rt))])
  {
  }

  /** A render that reports a deploy ran Hugo and then deployed to the runtime's project. */
  lemma RenderDeploys(job: Job, rt: RuntimeConfig, site: Value, steps: Steps, fetched: Effect)
    requires Render(job, rt, site, steps, [fetched]).outcome == Ok(true)
    ensures Render(job, rt, site, steps, [fetched]).effects == [fetched, HugoRun, HostingDeploy(site, rt.firebaseProject)]
  {
    assert [fetched] + [HugoRun, HostingDeploy(site, rt.firebaseProject)] == [fetched, HugoRun, HostingDeploy(site, rt.firebaseProject)];
  }
}
