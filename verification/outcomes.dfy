/**
 The faults the builder raises, and the result types that carry them.
 Each Fault constructor stands for one exception the Python code raises;
 its arguments are the values interpolated into that exception's message.
 */
module Outcomes {
  import opened Json

  datatype Option<+T> = None | Some(value: T)

  datatype Fault =
    // app.py: "Missing required fields: ..."
    | MissingPayloadFields(fields: seq<string>)
    // app.py: "Environment mismatch: payload env=... runtime env=..."
    | EnvMismatch(payloadEnv: Value, runtimeEnv: string)
    // "buildTarget must be an object"
    | BuildTargetNotObject
    // "buildTarget must include hostingProject"
    | MissingHostingProject
    // "buildTarget must include site"
    | MissingSite
    // "buildTarget.hostingProject must match runtime FIREBASE_PROJECT"
    // (app.py appends "for non-local deploys", recorded by forNonLocal)
    | HostingProjectMismatch(forNonLocal: bool)
    // "snapshotUri must be gs://bucket/path"
    | NotGsUri
    // "snapshotUri must include object prefix path"
    | MissingObjectPrefix
    // ValueError of Path.relative_to for an object outside the prefix
    | NotRelative(name: string, prefix: string)
    // OSError of mkdir or of the download when one object needs as a
    // directory a path another object holds as a file
    | PathClash(name: string)
    // "No snapshot files found at <uri>. ..."
    | NoSnapshotObjects(uri: string)
    // "Snapshot missing required directories: ..."
    | MissingDirectories(names: seq<string>)
    // "Snapshot directories are empty: ..."
    | EmptyDirectories(names: seq<string>)
    // "manifest.json not found in snapshot"
    | ManifestNotFound
    // "manifest.json must be an object"
    | ManifestNotObject
    // "manifest.json missing fields: ..."
    | ManifestMissingFields(fields: seq<string>)
    // "manifest.json field files must be an object"
    | FilesNotObject
    // "manifest.json missing files.<key>"
    | ManifestMissingFilesKey(key: string)
    // "manifest.json mismatch for <field>: manifest=... payload=..."
    | ManifestMismatch(field: string, manifestValue: Value, payloadValue: Value)
    // shutil.copytree on a snapshot entry that is a file, not a directory
    | NotADirectory(name: string)
    // "Unsupported templateKey=<key>. Expected gymnastics."
    | UnsupportedTemplate(key: string)
    // "Concurrent publish blocked by active lock for org=... vertical=..."
    | LockConflict(orgId: string, verticalKey: string)
    // any failure reported by a collaborator: the document store, object
    // storage, a subprocess or the filesystem, with its message
    | External(message: string)

  datatype Result<+T> = Ok(value: T) | Err(error: Fault)

  datatype Outcome = Pass | Fail(error: Fault)
}
