/**
 `gs://bucket/path` URIs: `_parse_gs_uri` and the snapshot URI the build
 constructs, which the parser takes apart again.
 */
module GsUri {
  import opened Strings
  import opened Outcomes
  import opened Config

  const Scheme: string := "gs://"

  /** `_parse_gs_uri`: (bucket, object prefix without trailing '/'). */
  function ParseGsUri(uri: string): (r: Result<(string, string)>)
    ensures !HasPrefix(uri, Scheme) ==> r == Err(NotGsUri)
    ensures HasPrefix(uri, Scheme) && NoSlash(uri[|Scheme|..]) ==> r == Err(MissingObjectPrefix)
    ensures r.Ok? <==> HasPrefix(uri, Scheme) && !NoSlash(uri[|Scheme|..])
    ensures r.Ok? ==>
      var (bucket, path) := r.value;
      && NoSlash(bucket)
      && !EndsWithSlash(path)
      && HasPrefix(uri, Scheme + bucket + "/" + path)
      && AllSlashes(uri[|Scheme + bucket + "/" + path|..])
  {
    if !HasPrefix(uri, Scheme) then Err(NotGsUri)
    else
      var rest := uri[|Scheme|..];
      var i := FirstSlash(rest);
      if i == |rest| then
        assert rest[..i] == rest;
        Err(MissingObjectPrefix)
      else
        SplitShape(uri, i);
        Ok((rest[..i], StripTrailingSlashes(rest[i + 1..])))
  }

  lemma SplitShape(uri: string, i: nat)
    requires HasPrefix(uri, Scheme)
    requires i == FirstSlash(uri[|Scheme|..]) < |uri[|Scheme|..]|
    ensures !NoSlash(uri[|Scheme|..])
    ensures var rest := uri[|Scheme|..];
      var bucket := rest[..i];
      var path := StripTrailingSlashes(rest[i + 1..]);
      HasPrefix(uri, Scheme + bucket + "/" + path) && AllSlashes(uri[|Scheme + bucket + "/" + path|..])
  {
    var rest := uri[|Scheme|..];
    var bucket := rest[..i];
    var tail := rest[i + 1..];
    var path := StripTrailingSlashes(tail);
    var extra := tail[|path|..];
    SplitAround(uri, |Scheme|);
    SplitAtSlash(rest, i);
    SplitAround(tail, |path|);
    Reassemble(uri, Scheme, rest, bucket, tail, path, extra);
    ConcatSplits(Scheme + bucket + "/" + path, extra);
  }

  /** orgs/{orgId}/verticals/{verticalKey}/exports/{exportId} */
  function SnapshotPrefix(job: Job): string {
    "orgs/" + job.orgId + "/verticals/" + job.verticalKey + "/exports/" + job.exportId
  }

  /** `_snapshot_uri` */
  function SnapshotUri(job: Job, rt: RuntimeConfig): string {
    Scheme + rt.exportBucket + "/" + SnapshotPrefix(job)
  }

  /** The parser recovers the bucket and the prefix of a constructed snapshot
      URI, minus any trailing '/' of the prefix. */
  lemma SnapshotUriParses(job: Job, rt: RuntimeConfig)
    requires NoSlash(rt.exportBucket)
    ensures ParseGsUri(SnapshotUri(job, rt)) == Ok((rt.exportBucket, StripTrailingSlashes(SnapshotPrefix(job))))
  {
    var uri := SnapshotUri(job, rt);
    var rest := rt.exportBucket + "/" + SnapshotPrefix(job);
    assert HasPrefix(uri, Scheme) && uri[|Scheme|..] == rest;
    FirstSlashOfJoin(rt.exportBucket, SnapshotPrefix(job));
    assert rest[..|rt.exportBucket|] == rt.exportBucket;
    assert rest[|rt.exportBucket| + 1..] == SnapshotPrefix(job);
  }

  /** The round trip is exact precisely when the export id is non-empty and
      does not end in '/'. */
  lemma SnapshotUriRoundTrip(job: Job, rt: RuntimeConfig)
    requires NoSlash(rt.exportBucket)
    ensures ParseGsUri(SnapshotUri(job, rt)) == Ok((rt.exportBucket, SnapshotPrefix(job)))
        <==> job.exportId != "" && !EndsWithSlash(job.exportId)
  {
    SnapshotUriParses(job, rt);
    var p := SnapshotPrefix(job);
    if job.exportId != "" && !EndsWithSlash(job.exportId) {
      assert p[|p| - 1] == job.exportId[|job.exportId| - 1];
      StripIdentity(p);
    } else {
      assert EndsWithSlash(p) by {
        if job.exportId == "" {
          assert p[|p| - 1] == '/';
        } else {
          assert p[|p| - 1] == job.exportId[|job.exportId| - 1];
        }
      }
      assert StripTrailingSlashes(p) != p;
    }
  }
}
