/**
 * `URLSearchParams` as the pages use it: a query string is a list of
 * name/value pairs, `get` returns the first value of a name, and `toString`
 * joins the pairs with `&`. Percent-encoding and `+` for spaces are not modelled.
 */
module QueryParams {
  import opened Wrappers
  import opened Text
  import Seqs

  /** The entries of a `URLSearchParams`, in order. */
  type Params = seq<(string, string)>

  /** `params.get(name)`: the value of the first entry with that name, or null. */
  function Get(p: Params, name: string): (r: Option<string>)
    ensures r.None? <==> forall k :: 0 <= k < |p| ==> p[k].0 != name
    ensures r.Some? ==> exists k :: 0 <= k < |p| && p[k] == (name, r.value) && forall j :: 0 <= j < k ==> p[j].0 != name
  {
    var k := Seqs.FirstIndex(p, (e: (string, string)) => e.0 == name);
    if k < |p| then Some(p[k].1) else None
  }

  /** A lookup in a concatenation finds the first part's entry when it has one. */
  lemma {:induction false} GetAppend(a: Params, b: Params, name: string)
    ensures Get(a + b, name) == if Get(a, name).Some? then Get(a, name) else Get(b, name)
    decreases |a|
  {
    if a == [] {
      assert a + b == b;
    } else {
      assert (a + b)[0] == a[0] && (a + b)[1..] == a[1..] + b;
      GetCons(a + b, name);
      GetCons(a, name);
      GetAppend(a[1..], b, name);
    }
  }

  /** A lookup checks the first entry, then the rest. */
  lemma GetCons(p: Params, name: string)
    requires p != []
    ensures Get(p, name) == if p[0].0 == name then Some(p[0].1) else Get(p[1..], name)
  {
  }

  /** One `name=value` segment, split at its first `=`; a segment without `=` has an empty value. */
  function ParsePair(seg: string): (r: (string, string))
    ensures '=' !in r.0
    ensures '=' in seg ==> seg == r.0 + "=" + r.1
    ensures '=' !in seg ==> r == (seg, "")
  {
    var i := Seqs.FirstIndex(seg, c => c == '=');
    if i < |seg| then
      assert seg == seg[..i] + "=" + seg[i + 1..];
      (seg[..i], seg[i + 1..])
    else (seg, "")
  }

  /** The segments of a query string, empty segments skipped. */
  function ParseSegments(segs: seq<string>): (r: Params)
    ensures |r| <= |segs|
  {
    if segs == [] then []
    else if segs[0] == "" then ParseSegments(segs[1..])
    else [ParsePair(segs[0])] + ParseSegments(segs[1..])
  }

  /** `new URLSearchParams(query)` for a query string without the leading `?`. */
  function Parse(query: string): Params {
    ParseSegments(Split(query, '&'))
  }

  /** `name=value` for one entry. */
  function Segment(e: (string, string)): (s: string)
    ensures s != []
  {
    e.0 + "=" + e.1
  }

  /** `params.toString()`: the segments joined by `&`. */
  function ToString(p: Params): (s: string)
    ensures s == [] <==> p == []
    decreases |p|
  {
    if p == [] then ""
    else if |p| == 1 then Segment(p[0])
    else Segment(p[0]) + "&" + ToString(p[1..])
  }

  /** An entry can be written and read back unchanged: names hold neither `&` nor `=`, values no `&`. */
  predicate Writable(e: (string, string)) {
    '&' !in e.0 && '=' !in e.0 && '&' !in e.1
  }

  /** A segment splits back into its name and value. */
  lemma ParseSegment(e: (string, string))
    requires '=' !in e.0
    ensures ParsePair(Segment(e)) == e
  {
    var s := Segment(e);
    var r := ParsePair(s);
    assert s[|e.0|] == '=';
    assert '=' in s;
    // The first `=` of the segment is the one after the name, which holds none.
    if |r.0| != |e.0| {
      assert false;
    }
    assert r.0 == s[..|r.0|] == e.0;
    assert r.1 == s[|r.0| + 1..] == e.1;
  }

  /** The pieces of the written string, one segment per entry. */
  function Segments(p: Params): (r: seq<string>)
    ensures |r| == |p|
    ensures forall k :: 0 <= k < |p| ==> r[k] == Segment(p[k])
  {
    if p == [] then [] else [Segment(p[0])] + Segments(p[1..])
  }

  lemma {:induction false} ToStringIsJoin(p: Params)
    ensures ToString(p) == Join(Segments(p), "&")
    decreases |p|
  {
    if |p| > 1 {
      ToStringIsJoin(p[1..]);
      assert Segments(p)[1..] == Segments(p[1..]);
    }
  }

  lemma {:induction false} ParseSegmentsOfEntries(p: Params)
    requires forall k :: 0 <= k < |p| ==> Writable(p[k])
    ensures ParseSegments(Segments(p)) == p
    decreases |p|
  {
    if p != [] {
      var segs := Segments(p);
      assert segs[1..] == Segments(p[1..]);
      ParseSegment(p[0]);
      ParseSegmentsOfEntries(p[1..]);
    }
  }

  /** Reading a written query gives back its entries. */
  lemma ParseToString(p: Params)
    requires forall k :: 0 <= k < |p| ==> Writable(p[k])
    ensures Parse(ToString(p)) == p
  {
    ToStringIsJoin(p);
    if p == [] {
      assert Split("", '&') == [""];
    } else {
      var segs := Segments(p);
      forall k | 0 <= k < |segs|
        ensures '&' !in segs[k]
      {
        assert segs[k] == p[k].0 + "=" + p[k].1;
      }
      SplitJoin(segs, '&');
      ParseSegmentsOfEntries(p);
    }
  }
}
