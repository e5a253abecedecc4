/**
 Document paths of the lock and receipt records in the document store.
 Both stores are modelled as maps keyed by pairs of identifiers; the
 lemmas here justify that: distinct pairs never share a document, and a
 lock never shares a document with a receipt.
 */
module DocPaths {
  import opened Strings

  /** orgs/{orgId}/verticalBuildLocks/{verticalKey} */
  function LockPath(orgId: string, verticalKey: string): string {
    "orgs/" + orgId + "/verticalBuildLocks/" + verticalKey
  }

  /** orgs/{orgId}/verticalBuildReceipts/{jobId} */
  function ReceiptPath(orgId: string, jobId: string): string {
    "orgs/" + orgId + "/verticalBuildReceipts/" + jobId
  }

  lemma DropOrgsPrefix(x: string, y: string)
    ensures "orgs/" + x == "orgs/" + y <==> x == y
  {
    if "orgs/" + x == "orgs/" + y {
      assert x == ("orgs/" + x)[5..];
      assert y == ("orgs/" + y)[5..];
    }
  }

  lemma LockPathInjective(o1: string, v1: string, o2: string, v2: string)
    requires NoSlash(o1) && NoSlash(o2)
    ensures LockPath(o1, v1) == LockPath(o2, v2) <==> o1 == o2 && v1 == v2
  {
    var t1, t2 := "verticalBuildLocks/" + v1, "verticalBuildLocks/" + v2;
    assert LockPath(o1, v1) == "orgs/" + (o1 + "/" + t1);
    assert LockPath(o2, v2) == "orgs/" + (o2 + "/" + t2);
    DropOrgsPrefix(o1 + "/" + t1, o2 + "/" + t2);
    SplitJoin(o1, t1, o2, t2);
    if t1 == t2 {
      assert v1 == t1[19..];
      assert v2 == t2[19..];
    }
  }

  lemma ReceiptPathInjective(o1: string, j1: string, o2: string, j2: string)
    requires NoSlash(o1) && NoSlash(o2)
    ensures ReceiptPath(o1, j1) == ReceiptPath(o2, j2) <==> o1 == o2 && j1 == j2
  {
    var t1, t2 := "verticalBuildReceipts/" + j1, "verticalBuildReceipts/" + j2;
    assert ReceiptPath(o1, j1) == "orgs/" + (o1 + "/" + t1);
    assert ReceiptPath(o2, j2) == "orgs/" + (o2 + "/" + t2);
    DropOrgsPrefix(o1 + "/" + t1, o2 + "/" + t2);
    SplitJoin(o1, t1, o2, t2);
    if t1 == t2 {
      assert j1 == t1[22..];
      assert j2 == t2[22..];
    }
  }

  lemma LockAndReceiptPathsDiffer(o1: string, v: string, o2: string, j: string)
    requires NoSlash(o1) && NoSlash(o2)
    ensures LockPath(o1, v) != ReceiptPath(o2, j)
  {
    var t1, t2 := "verticalBuildLocks/" + v, "verticalBuildReceipts/" + j;
    assert LockPath(o1, v) == "orgs/" + (o1 + "/" + t1);
    assert ReceiptPath(o2, j) == "orgs/" + (o2 + "/" + t2);
    DropOrgsPrefix(o1 + "/" + t1, o2 + "/" + t2);
    SplitJoin(o1, t1, o2, t2);
    assert t1[13] == 'L' && t2[13] == 'R';
  }
}
