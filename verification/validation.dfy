/**
 * Form validation in the style of the pages' zod schemas: every field's checks
 * run in the schema's key order, and the page reports only the first failure.
 */
module Validation {
  import opened Wrappers
  import opened Text
  import Seqs

  /** One check of one field, and the message zod reports when it fails. */
  datatype Check = Check(ok: bool, message: string)

  /** `z.string().min(n, message)`; lengths are counted in characters. */
  function MinLength(s: string, n: nat, message: string): (c: Check)
    ensures c.ok <==> |s| >= n
  {
    Check(|s| >= n, message)
  }

  /** `z.string().max(n)` with zod's default message. */
  function MaxLength(s: string, n: nat): (c: Check)
    ensures c.ok <==> |s| <= n
    ensures c.message == "String must contain at most " + NatToString(n) + " character(s)"
  {
    Check(|s| <= n, "String must contain at most " + NatToString(n) + " character(s)")
  }

  /** `error.errors[0].message`: the message of the first failing check, or none when all pass. */
  function FirstError(checks: seq<Check>): (r: Option<string>)
    ensures r.None? <==> forall k :: 0 <= k < |checks| ==> checks[k].ok
    ensures r.Some? ==>
      exists k :: 0 <= k < |checks| && !checks[k].ok && r.value == checks[k].message && forall j :: 0 <= j < k ==> checks[j].ok
  {
    var k := Seqs.FirstIndex(checks, (c: Check) => !c.ok);
    if k < |checks| then Some(checks[k].message) else None
  }

  /** A failure in an earlier group of checks hides every later one. */
  lemma {:induction false} FirstErrorAppend(a: seq<Check>, b: seq<Check>)
    ensures FirstError(a + b) == if FirstError(a).Some? then FirstError(a) else FirstError(b)
    decreases |a|
  {
    if a == [] {
      assert a + b == b;
    } else {
      assert (a + b)[0] == a[0];
      assert (a + b)[1..] == a[1..] + b;
      FirstErrorAppend(a[1..], b);
      assert FirstError(a + b) == if a[0].ok then FirstError(a[1..] + b) else Some(a[0].message) by {
        FirstErrorCons(a + b);
      }
      FirstErrorCons(a);
    }
  }

  /** The first error of a non-empty list: the head's message, or the tail's first error. */
  lemma FirstErrorCons(s: seq<Check>)
    requires s != []
    ensures FirstError(s) == if s[0].ok then FirstError(s[1..]) else Some(s[0].message)
  {
    var p := (c: Check) => !c.ok;
    if s[0].ok {
      assert Seqs.FirstIndex(s, p) == 1 + Seqs.FirstIndex(s[1..], p);
    }
  }
}
