/**
 The manifest validator: `validate_manifest` checks the snapshot manifest
 against the job, in the order the Python code checks it, and tolerates an
 environment mismatch only for a local target that allows an override.
 */
module Manifests {
  import opened Seqs
  import opened Json
  import opened Outcomes
  import opened Config
  import opened Targets

  /** The required top-level manifest fields, in declaration order. */
  const ManifestFields: seq<string> :=
    ["exportId", "orgId", "verticalKey", "templateKey", "env",
     "generatedAt", "sourceUpdatedAt", "contentHash", "assetHash", "files"]

  /** The identity fields compared with the payload, in the order compared. */
  const IdentityFields: seq<string> := ["orgId", "verticalKey", "templateKey", "exportId"]

  /** `payload[field]` for the fields the validator reads. */
  function PayloadValue(job: Job, field: string): Value {
    if field == "orgId" then Str(job.orgId)
    else if field == "verticalKey" then Str(job.verticalKey)
    else if field == "templateKey" then Str(job.templateKey)
    else if field == "exportId" then Str(job.exportId)
    else if field == "env" then Str(job.env)
    else Null
  }

  /** The target tolerates an environment mismatch: an object whose site is
      "local" and whose allowEnvOverride is truthy. */
  predicate EnvOverride(target: Value) {
    target.Obj? && SiteOf(target.fields) == LocalSite && AllowsEnvOverride(target.fields)
  }

  predicate HasManifestFields(m: map<string, Value>) {
    && "exportId" in m && "orgId" in m && "verticalKey" in m && "templateKey" in m && "env" in m
    && "generatedAt" in m && "sourceUpdatedAt" in m && "contentHash" in m && "assetHash" in m
    && "files" in m
  }

  /** The comprehension over ManifestFields, written out field by field. */
  function MissingManifestFields(m: map<string, Value>): seq<string> {
    Absent("exportId", m) + (Absent("orgId", m) + (Absent("verticalKey", m) + (Absent("templateKey", m)
    + (Absent("env", m) + (Absent("generatedAt", m) + (Absent("sourceUpdatedAt", m)
    + (Absent("contentHash", m) + (Absent("assetHash", m) + Absent("files", m)))))))))
  }

  lemma NoMissingManifestFields(m: map<string, Value>)
    ensures MissingManifestFields(m) == [] <==> HasManifestFields(m)
  {
  }

  /** The missing-key list of a list that starts with `x`. */
  lemma MissingKeysFront(x: string, rest: seq<string>, m: map<string, Value>)
    ensures MissingKeys([x] + rest, m) == Absent(x, m) + MissingKeys(rest, m)
  {
    MissingKeysCons([x] + rest, m);
    assert ([x] + rest)[1..] == rest;
  }

  /** The missing-key list of five fields followed by `rest`, one field at a time. */
  lemma MissingKeysFive(f0: string, f1: string, f2: string, f3: string, f4: string,
                        rest: seq<string>, m: map<string, Value>)
    ensures MissingKeys([f0, f1, f2, f3, f4] + rest, m)
         == Absent(f0, m) + (Absent(f1, m) + (Absent(f2, m) + (Absent(f3, m) + (Absent(f4, m) + MissingKeys(rest, m)))))
  {
    assert [f0, f1, f2, f3, f4] + rest == [f0] + ([f1] + ([f2] + ([f3] + ([f4] + rest))));
    MissingKeysFront(f4, rest, m);
    MissingKeysFront(f3, [f4] + rest, m);
    MissingKeysFront(f2, [f3] + ([f4] + rest), m);
    MissingKeysFront(f1, [f2] + ([f3] + ([f4] + rest)), m);
    MissingKeysFront(f0, [f1] + ([f2] + ([f3] + ([f4] + rest))), m);
  }

  /** The missing-key list of a ten-field list, one field at a time. */
  lemma MissingKeysTen(f0: string, f1: string, f2: string, f3: string, f4: string,
                       f5: string, f6: string, f7: string, f8: string, f9: string, m: map<string, Value>)
    ensures MissingKeys([f0, f1, f2, f3, f4, f5, f6, f7, f8, f9], m) == Absent(f0, m) + (Absent(f1, m) + (Absent(f2, m) + (Absent(f3, m) + (Absent(f4, m) + (Absent(f5, m) + (Absent(f6, m) + (Absent(f7, m) + (Absent(f8, m) + (Absent(f9, m))))))))))
  {
    var back := [f5, f6, f7, f8, f9];
    assert [f0, f1, f2, f3, f4, f5, f6, f7, f8, f9] == [f0, f1, f2, f3, f4] + back;
    assert back == back + [];
    MissingKeysFive(f5, f6, f7, f8, f9, [], m);
    assert Absent(f9, m) + MissingKeys([], m) == Absent(f9, m);
    MissingKeysFive(f0, f1, f2, f3, f4, back, m);
  }

  /** The written-out list is the comprehension: exactly the absent fields,
      in declaration order. */
  lemma MissingManifestFieldsInOrder(m: map<string, Value>)
    ensures MissingManifestFields(m) == MissingKeys(ManifestFields, m)
    ensures forall k :: k in MissingManifestFields(m) <==> k in ManifestFields && k !in m
    ensures Subsequence(MissingManifestFields(m), ManifestFields)
  {
    MissingKeysTen("exportId", "orgId", "verticalKey", "templateKey", "env",
      "generatedAt", "sourceUpdatedAt", "contentHash", "assetHash", "files", m);
    MissingKeysMembers(ManifestFields, m);
  }

  /** The structural part of the manifest is complete. */
  predicate WellFormed(m: map<string, Value>) {
    && HasManifestFields(m)
    && m["files"].Obj?
    && "markdownCount" in m["files"].fields
    && "assetCount" in m["files"].fields
  }

  /** The manifest names the payload's org, vertical, template and export. */
  predicate IdentityAgrees(m: map<string, Value>, job: Job)
    requires HasManifestFields(m)
  {
    && m["orgId"] == Str(job.orgId)
    && m["verticalKey"] == Str(job.verticalKey)
    && m["templateKey"] == Str(job.templateKey)
    && m["exportId"] == Str(job.exportId)
  }

  /** Everything `validate_manifest` demands, stated declaratively. */
  predicate Consistent(m: map<string, Value>, job: Job) {
    && WellFormed(m)
    && IdentityAgrees(m, job)
    && (m["env"] == Str(job.env) || EnvOverride(job.buildTarget))
  }

  /** The manifest agrees with the payload on `IdentityFields[k]`. */
  predicate AgreesAt(m: map<string, Value>, job: Job, k: int)
    requires HasManifestFields(m) && 0 <= k < |IdentityFields|
  {
    m[IdentityFields[k]] == PayloadValue(job, IdentityFields[k])
  }

  /** `IdentityFields[k]` is the first identity field the manifest disagrees on. */
  predicate FirstMismatchAt(m: map<string, Value>, job: Job, k: int)
    requires HasManifestFields(m)
  {
    && 0 <= k < |IdentityFields|
    && !AgreesAt(m, job, k)
    && forall j :: 0 <= j < k ==> AgreesAt(m, job, j)
  }

  /** The error raised for a disagreement on `IdentityFields[k]`: the field,
      the manifest's value and the payload's value. */
  function MismatchAt(m: map<string, Value>, job: Job, k: nat): Fault
    requires HasManifestFields(m) && k < |IdentityFields|
  {
    ManifestMismatch(IdentityFields[k], m[IdentityFields[k]], PayloadValue(job, IdentityFields[k]))
  }

  /** The loop over the identity fields: the first disagreement is raised. */
  function CheckIdentity(m: map<string, Value>, job: Job): (r: Outcome)
    requires HasManifestFields(m)
    ensures r.Pass? <==> IdentityAgrees(m, job)
    ensures r.Fail? ==> exists k :: FirstMismatchAt(m, job, k) && r.error == MismatchAt(m, job, k)
    ensures r.Fail? ==> r.error.ManifestMismatch? && r.error.field != "env"
  {
    if m["orgId"] != Str(job.orgId) then
      assert FirstMismatchAt(m, job, 0);
      Fail(ManifestMismatch("orgId", m["orgId"], Str(job.orgId)))
    else if m["verticalKey"] != Str(job.verticalKey) then
      assert AgreesAt(m, job, 0) && FirstMismatchAt(m, job, 1);
      Fail(ManifestMismatch("verticalKey", m["verticalKey"], Str(job.verticalKey)))
    else if m["templateKey"] != Str(job.templateKey) then
      assert AgreesAt(m, job, 0) && AgreesAt(m, job, 1) && FirstMismatchAt(m, job, 2);
      Fail(ManifestMismatch("templateKey", m["templateKey"], Str(job.templateKey)))
    else if m["exportId"] != Str(job.exportId) then
      assert AgreesAt(m, job, 0) && AgreesAt(m, job, 1) && AgreesAt(m, job, 2) && FirstMismatchAt(m, job, 3);
      Fail(ManifestMismatch("exportId", m["exportId"], Str(job.exportId)))
    else
      Pass
  }

  /** `validate_manifest`. */
  function ValidateManifest(m: map<string, Value>, job: Job): (r: Outcome)
    ensures r.Pass? <==> Consistent(m, job)
    ensures MissingManifestFields(m) != [] ==> r == Fail(ManifestMissingFields(MissingManifestFields(m)))
    ensures HasManifestFields(m) && !m["files"].Obj? ==> r == Fail(FilesNotObject)
    ensures HasManifestFields(m) && m["files"].Obj? && "markdownCount" !in m["files"].fields
      ==> r == Fail(ManifestMissingFilesKey("markdownCount"))
    ensures HasManifestFields(m) && m["files"].Obj? && "markdownCount" in m["files"].fields
      && "assetCount" !in m["files"].fields
      ==> r == Fail(ManifestMissingFilesKey("assetCount"))
    ensures WellFormed(m) ==> r == (if CheckIdentity(m, job).Fail? then CheckIdentity(m, job) else EnvCheck(m, job))
  {
    var missing := MissingManifestFields(m);
    NoMissingManifestFields(m);
    if missing != [] then Fail(ManifestMissingFields(missing))
    else
      var files := m["files"];
      if !files.Obj? then Fail(FilesNotObject)
      else if "markdownCount" !in files.fields then Fail(ManifestMissingFilesKey("markdownCount"))
      else if "assetCount" !in files.fields then Fail(ManifestMissingFilesKey("assetCount"))
      else
        var identity := CheckIdentity(m, job);
        if identity.Fail? then identity else EnvCheck(m, job)
  }

  /** The environment comparison, tolerated for a local override target. */
  function EnvCheck(m: map<string, Value>, job: Job): (r: Outcome)
    requires HasManifestFields(m)
    ensures r.Pass? <==> m["env"] == Str(job.env) || EnvOverride(job.buildTarget)
    ensures r.Fail? ==> r.error == ManifestMismatch("env", m["env"], Str(job.env))
  {
    if m["env"] != Str(job.env) && !EnvOverride(job.buildTarget) then
      Fail(ManifestMismatch("env", m["env"], Str(job.env)))
    else Pass
  }

  /** The first identity mismatch is the one reported, with both values. */
  lemma FirstIdentityMismatchReported(m: map<string, Value>, job: Job, k: nat)
    requires WellFormed(m) && FirstMismatchAt(m, job, k)
    ensures ValidateManifest(m, job) == Fail(MismatchAt(m, job, k))
  {
    var k' :| FirstMismatchAt(m, job, k') && CheckIdentity(m, job).error == MismatchAt(m, job, k');
    FirstMismatchUnique(m, job, k, k');
  }

  lemma FirstMismatchUnique(m: map<string, Value>, job: Job, a: int, b: int)
    requires HasManifestFields(m) && FirstMismatchAt(m, job, a) && FirstMismatchAt(m, job, b)
    ensures a == b
  {
  }

  /** Agreement on every identity field, read off `IdentityFields` one index at a time. */
  lemma IdentityAgreesAtEveryIndex(m: map<string, Value>, job: Job)
    requires HasManifestFields(m)
    ensures IdentityAgrees(m, job) <==> forall k :: 0 <= k < |IdentityFields| ==> AgreesAt(m, job, k)
  {
    if forall k :: 0 <= k < |IdentityFields| ==> AgreesAt(m, job, k) {
      assert AgreesAt(m, job, 0) && AgreesAt(m, job, 1) && AgreesAt(m, job, 2) && AgreesAt(m, job, 3);
    }
  }

  /** The environment is compared only once every identity field agrees. */
  lemma EnvMismatchOnlyAfterIdentity(m: map<string, Value>, job: Job)
    requires ValidateManifest(m, job).Fail? && ValidateManifest(m, job).error.ManifestMismatch?
    requires ValidateManifest(m, job).error.field == "env"
    ensures WellFormed(m)
    ensures IdentityAgrees(m, job)
    ensures m["env"] != Str(job.env) && !EnvOverride(job.buildTarget)
  {
    NoMissingManifestFields(m);
  }

  /** Manifest env "prod" against job env "staging": accepted for a local
      target carrying allowEnvOverride = true, rejected when it is false. */
  lemma EnvOverrideExample(m: map<string, Value>, job: Job, allow: bool)
    requires WellFormed(m) && CheckIdentity(m, job).Pass?
    requires m["env"] == Str("prod") && job.env == "staging"
    requires job.buildTarget == Obj(map["site" := Str("local"), "allowEnvOverride" := Bool(allow)])
    ensures allow ==> ValidateManifest(m, job).Pass?
    ensures !allow ==> ValidateManifest(m, job) == Fail(ManifestMismatch("env", Str("prod"), Str("staging")))
  {
    var fields := job.buildTarget.fields;
    assert SiteOf(fields) == LocalSite;
    assert AllowsEnvOverride(fields) <==> allow;
    assert EnvOverride(job.buildTarget) <==> allow;
    assert ValidateManifest(m, job) == EnvCheck(m, job);
  }
}
