/**
 The two build-target validators: `_validate_build_target`, run by the
 build, and `_validate_payload`, run at intake. Both state the same
 hostingProject/site rule; the lemmas at the end relate them.
 */
module Targets {
  import opened Json
  import opened Outcomes
  import opened Config

  /** REQUIRED_PAYLOAD_FIELDS, in declaration order. */
  const PayloadFields: seq<string> :=
    ["jobId", "env", "orgId", "verticalKey", "templateKey", "exportId", "buildTarget"]

  const LocalSite: Value := Str("local")

  function HostingProjectOf(target: map<string, Value>): Value {
    Get(target, "hostingProject")
  }

  function SiteOf(target: map<string, Value>): Value {
    Get(target, "site")
  }

  /** `bool(build_target.get("allowEnvOverride", False))` */
  predicate AllowsEnvOverride(target: map<string, Value>) {
    Truthy(Get(target, "allowEnvOverride"))
  }

  /** The rule both validators enforce: a truthy hosting project and site,
      and the runtime's project unless the site is local. */
  predicate TargetRule(target: map<string, Value>, project: string) {
    && Truthy(HostingProjectOf(target))
    && Truthy(SiteOf(target))
    && (HostingProjectOf(target) == Str(project) || SiteOf(target) == LocalSite)
  }

  /** `_validate_build_target`: the rule, checked in order, yielding (hostingProject, site). */
  function ValidateBuildTarget(target: Value, rt: RuntimeConfig): (r: Result<(Value, Value)>)
    ensures !target.Obj? ==> r == Err(BuildTargetNotObject)
    ensures target.Obj? ==> (r.Ok? <==> TargetRule(target.fields, rt.firebaseProject))
    ensures r.Ok? ==> r.value == (HostingProjectOf(target.fields), SiteOf(target.fields))
    ensures target.Obj? && !Truthy(HostingProjectOf(target.fields)) ==> r == Err(MissingHostingProject)
    ensures target.Obj? && Truthy(HostingProjectOf(target.fields)) && !Truthy(SiteOf(target.fields))
      ==> r == Err(MissingSite)
    ensures r.Err? && r.error == HostingProjectMismatch(false) <==>
      target.Obj? && Truthy(HostingProjectOf(target.fields)) && Truthy(SiteOf(target.fields))
      && HostingProjectOf(target.fields) != Str(rt.firebaseProject) && SiteOf(target.fields) != LocalSite
  {
    if !target.Obj? then Err(BuildTargetNotObject)
    else
      var hostingProject := HostingProjectOf(target.fields);
      var site := SiteOf(target.fields);
      if !Truthy(hostingProject) then Err(MissingHostingProject)
      else if !Truthy(site) then Err(MissingSite)
      else if hostingProject != Str(rt.firebaseProject) && site != LocalSite then Err(HostingProjectMismatch(false))
      else Ok((hostingProject, site))
  }

  /** The environment rule of intake: the payload's env is the runtime's, or
      the target is local and allows an override. */
  predicate EnvRule(env: Value, target: map<string, Value>, runtimeEnv: string) {
    env == Str(runtimeEnv) || (SiteOf(target) == LocalSite && AllowsEnvOverride(target))
  }

  /** Every field of REQUIRED_PAYLOAD_FIELDS is present. */
  predicate HasPayloadFields(payload: map<string, Value>) {
    && "jobId" in payload && "env" in payload && "orgId" in payload && "verticalKey" in payload
    && "templateKey" in payload && "exportId" in payload && "buildTarget" in payload
  }

  lemma NoMissingPayloadFields(payload: map<string, Value>)
    ensures MissingKeys(PayloadFields, payload) == [] <==> HasPayloadFields(payload)
  {
    var missing := MissingKeys(PayloadFields, payload);
    if missing == [] {
      assert forall k :: k in PayloadFields ==> k in payload;
      assert PayloadFields[1] == "env" && PayloadFields[6] == "buildTarget";
    }
  }

  /** `_validate_payload`. */
  function ValidatePayload(payload: map<string, Value>, rt: RuntimeConfig): (r: Outcome)
    ensures MissingKeys(PayloadFields, payload) != [] ==>
      r == Fail(MissingPayloadFields(MissingKeys(PayloadFields, payload)))
    ensures r.Pass? <==>
      && HasPayloadFields(payload)
      && payload["buildTarget"].Obj?
      && EnvRule(payload["env"], payload["buildTarget"].fields, rt.env)
      && TargetRule(payload["buildTarget"].fields, rt.firebaseProject)
    ensures HasPayloadFields(payload) && payload["buildTarget"].Obj?
      && !EnvRule(payload["env"], payload["buildTarget"].fields, rt.env)
      ==> r == Fail(EnvMismatch(payload["env"], rt.env))
    ensures HasPayloadFields(payload) && !payload["buildTarget"].Obj? ==> r == Fail(BuildTargetNotObject)
    ensures HasPayloadFields(payload) && payload["buildTarget"].Obj?
      && EnvRule(payload["env"], payload["buildTarget"].fields, rt.env)
      && !Truthy(HostingProjectOf(payload["buildTarget"].fields))
      ==> r == Fail(MissingHostingProject)
    ensures HasPayloadFields(payload) && payload["buildTarget"].Obj?
      && EnvRule(payload["env"], payload["buildTarget"].fields, rt.env)
      && Truthy(HostingProjectOf(payload["buildTarget"].fields)) && !Truthy(SiteOf(payload["buildTarget"].fields))
      ==> r == Fail(MissingSite)
    ensures HasPayloadFields(payload) && payload["buildTarget"].Obj?
      && EnvRule(payload["env"], payload["buildTarget"].fields, rt.env)
      && Truthy(HostingProjectOf(payload["buildTarget"].fields)) && Truthy(SiteOf(payload["buildTarget"].fields))
      && SiteOf(payload["buildTarget"].fields) != LocalSite
      && HostingProjectOf(payload["buildTarget"].fields) != Str(rt.firebaseProject)
      ==> r == Fail(HostingProjectMismatch(true))
  {
    var missing := MissingKeys(PayloadFields, payload);
    NoMissingPayloadFields(payload);
    if missing != [] then Fail(MissingPayloadFields(missing))
    else
      var target := payload["buildTarget"];
      if !target.Obj? then Fail(BuildTargetNotObject)
      else
        var hostingProject := HostingProjectOf(target.fields);
        var site := SiteOf(target.fields);
        if payload["env"] != Str(rt.env) && !(site == LocalSite && AllowsEnvOverride(target.fields)) then
          Fail(EnvMismatch(payload["env"], rt.env))
        else if !Truthy(hostingProject) then Fail(MissingHostingProject)
        else if !Truthy(site) then Fail(MissingSite)
        else if site != LocalSite && hostingProject != Str(rt.firebaseProject) then
          Fail(HostingProjectMismatch(true))
        else Pass
  }

  /** The payload fields the build reads as text are all strings. */
  predicate TextFields(payload: map<string, Value>)
    requires HasPayloadFields(payload)
  {
    && payload["jobId"].Str? && payload["env"].Str? && payload["orgId"].Str?
    && payload["verticalKey"].Str? && payload["templateKey"].Str? && payload["exportId"].Str?
  }

  /** The job the build runs for a payload: its text fields and its
      buildTarget; none when a field is missing or a text field is not a string. */
  function JobOf(payload: map<string, Value>): (r: Option<Job>)
    ensures r.Some? <==> HasPayloadFields(payload) && TextFields(payload)
    ensures r.Some? ==>
      && Str(r.value.jobId) == payload["jobId"] && Str(r.value.env) == payload["env"]
      && Str(r.value.orgId) == payload["orgId"] && Str(r.value.verticalKey) == payload["verticalKey"]
      && Str(r.value.templateKey) == payload["templateKey"] && Str(r.value.exportId) == payload["exportId"]
      && r.value.buildTarget == payload["buildTarget"]
  {
    if HasPayloadFields(payload) && TextFields(payload) then
      Some(Job(payload["jobId"].s, payload["env"].s, payload["orgId"].s, payload["verticalKey"].s,
               payload["templateKey"].s, payload["exportId"].s, payload["buildTarget"]))
    else None
  }

  /** A job made from an accepted payload passes the build's target check,
      and its env is the runtime's unless its target is local and allows an override. */
  lemma AcceptedJobPassesTargetCheck(payload: map<string, Value>, rt: RuntimeConfig)
    requires ValidatePayload(payload, rt).Pass? && JobOf(payload).Some?
    ensures var job := JobOf(payload).value;
      && ValidateBuildTarget(job.buildTarget, rt).Ok?
      && (job.env == rt.env || (SiteOf(job.buildTarget.fields) == LocalSite && AllowsEnvOverride(job.buildTarget.fields)))
  {
    AcceptedPayloadHasValidTarget(payload, rt);
  }

  /** Every payload intake accepts, the build's own target check accepts too. */
  lemma AcceptedPayloadHasValidTarget(payload: map<string, Value>, rt: RuntimeConfig)
    requires ValidatePayload(payload, rt).Pass?
    ensures "buildTarget" in payload
    ensures ValidateBuildTarget(payload["buildTarget"], rt).Ok?
  {
  }

  /** Intake is exactly the target check plus field presence and the env rule. */
  lemma PayloadIsTargetCheckPlusEnv(payload: map<string, Value>, rt: RuntimeConfig)
    requires HasPayloadFields(payload)
    ensures ValidatePayload(payload, rt).Pass? <==>
      && ValidateBuildTarget(payload["buildTarget"], rt).Ok?
      && EnvRule(payload["env"], payload["buildTarget"].fields, rt.env)
  {
  }

  /** When the environment rule holds, both validators reject the same targets
      for the same reason, except for the wording of the project mismatch. */
  lemma ValidatorsAgreeOnTargets(payload: map<string, Value>, rt: RuntimeConfig)
    requires HasPayloadFields(payload)
    requires payload["buildTarget"].Obj? ==> EnvRule(payload["env"], payload["buildTarget"].fields, rt.env)
    ensures var v := ValidateBuildTarget(payload["buildTarget"], rt);
      match ValidatePayload(payload, rt)
      case Pass => v.Ok?
      case Fail(e) =>
        v.Err? && (if e == HostingProjectMismatch(true) then v.error == HostingProjectMismatch(false) else v.error == e)
  {
  }
}
