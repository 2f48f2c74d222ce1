/** Which capabilities two devices have in common. */
module Capability {
  import opened Base

  /** Byte-wise lexicographic order, the order of sorted maps and `sort` on strings. */
  predicate Less(a: string, b: string) {
    b != "" && (a == "" || a[0] < b[0] || (a[0] == b[0] && Less(a[1..], b[1..])))
  }

  lemma {:induction false} LessTotal(a: string, b: string)
    ensures Less(a, b) || a == b || Less(b, a)
    ensures !(Less(a, b) && Less(b, a)) && !Less(a, a)
  {
    if a != "" && b != "" {
      LessTotal(a[1..], b[1..]);
      assert a == [a[0]] + a[1..] && b == [b[0]] + b[1..];
    }
    if a != "" {
      LessTotal(a[1..], a[1..]);
    }
  }

  lemma {:induction false} LessTrans(a: string, b: string, c: string)
    requires Less(a, b) && Less(b, c)
    ensures Less(a, c)
  {
    if a != "" && a[0] == b[0] == c[0] {
      LessTrans(a[1..], b[1..], c[1..]);
    }
  }

  ghost predicate StrictlySorted(s: seq<string>) {
    forall i, j :: 0 <= i < j < |s| ==> Less(s[i], s[j])
  }

  ghost predicate Sorted(s: seq<string>) {
    forall i, j :: 0 <= i < j < |s| ==> !Less(s[j], s[i])
  }

  function Insert(x: string, s: seq<string>): seq<string> {
    if s == [] then [x]
    else if Less(s[0], x) then [s[0]] + Insert(x, s[1..])
    else [x] + s
  }

  function Sort(s: seq<string>): seq<string> {
    if s == [] then [] else Insert(s[0], Sort(s[1..]))
  }

  /** Drops each element equal to the one after it. */
  function Dedup(s: seq<string>): seq<string> {
    if |s| <= 1 then s
    else if s[0] == s[1] then Dedup(s[1..])
    else [s[0]] + Dedup(s[1..])
  }

  lemma {:induction false} InsertSorts(x: string, s: seq<string>)
    requires Sorted(s)
    ensures Sorted(Insert(x, s))
    ensures forall y :: y in Insert(x, s) <==> y == x || y in s
  {
    if s != [] {
      InsertSorts(x, s[1..]);
      var r := Insert(x, s);
      LessTotal(s[0], x);
      if Less(s[0], x) {
        forall j | 0 < j < |r| ensures !Less(r[j], r[0]) {
          assert r[j] in Insert(x, s[1..]);
        }
      } else {
        forall j | 0 < j < |r| ensures !Less(r[j], r[0]) {
          if Less(r[j], x) && j > 1 {
            LessTotal(s[0], r[j]);
            if s[0] != r[j] { LessTrans(s[0], r[j], x); }
          }
        }
      }
    }
  }

  lemma {:induction false} SortSorts(s: seq<string>)
    ensures Sorted(Sort(s))
    ensures forall y :: y in Sort(s) <==> y in s
  {
    if s != [] {
      SortSorts(s[1..]);
      InsertSorts(s[0], Sort(s[1..]));
    }
  }

  lemma {:induction false} DedupStrict(s: seq<string>)
    requires Sorted(s)
    ensures StrictlySorted(Dedup(s))
    ensures forall y :: y in Dedup(s) <==> y in s
    ensures s != [] ==> Dedup(s) != [] && Dedup(s)[0] == s[0]
  {
    if |s| > 1 {
      DedupStrict(s[1..]);
      if s[0] != s[1] {
        LessTotal(s[0], s[1]);
        var d := Dedup(s[1..]);
        forall j | 0 <= j < |d| ensures Less(s[0], d[j]) {
          if j > 0 { LessTrans(s[0], d[0], d[j]); }
        }
      }
    }
  }

  lemma EmptyOrMember(s: seq<string>)
    ensures s == [] || exists y :: y in s
  {
    if s != [] { assert s[0] in s; }
  }

  /** Sorted-and-distinct lists are determined by their elements. */
  lemma {:induction false} StrictlySortedUnique(a: seq<string>, b: seq<string>)
    requires StrictlySorted(a) && StrictlySorted(b)
    requires forall y :: y in a <==> y in b
    ensures a == b
  {
    if a == [] {
      EmptyOrMember(b);
    } else {
      assert a[0] in a && a[0] in b;
      assert b[0] in b && b[0] in a;
      LessTotal(a[0], b[0]);
      assert a[0] == b[0];
      forall y ensures y in a[1..] <==> y in b[1..] {
        LessTotal(a[0], a[0]);
        assert a[0] !in a[1..] && b[0] !in b[1..];
        assert y in a <==> y == a[0] || y in a[1..];
        assert y in b <==> y == b[0] || y in b[1..];
      }
      StrictlySortedUnique(a[1..], b[1..]);
    }
  }

  /** The ids a registry holds: the keys of a sorted map, which is also what it advertises. */
  class CapabilityRegistry {
    const ids: seq<string>

    constructor (ids: seq<string>)
      requires StrictlySorted(ids)
      ensures this.ids == ids
    {
      this.ids := ids;
    }

    method Negotiate(peerAdvertised: seq<string>) returns (out: seq<string>)
      ensures out == Mutual(ids, peerAdvertised)
      ensures StrictlySorted(out) && forall c :: c in out <==> c in ids && c in peerAdvertised
    {
      out := [];
      for i := 0 to |peerAdvertised|
        invariant out == Filter(peerAdvertised[..i], (c: string) => c in ids)
      {
        assert peerAdvertised[..i + 1] == peerAdvertised[..i] + [peerAdvertised[i]];
        FilterSnoc(peerAdvertised[..i], peerAdvertised[i], (c: string) => c in ids);
        if peerAdvertised[i] in ids {
          out := out + [peerAdvertised[i]];
        }
      }
      assert peerAdvertised[..|peerAdvertised|] == peerAdvertised;
      out := Sort(out);
      out := Dedup(out);
      MutualIsSortedIntersection(ids, peerAdvertised);
    }
  }

  function Mutual(ids: seq<string>, advertised: seq<string>): seq<string> {
    Dedup(Sort(Filter(advertised, (c: string) => c in ids)))
  }

  /** Whatever a peer advertises, repeats and disorder included: the result lists exactly the ids both
      know, once each, in order. */
  lemma MutualIsSortedIntersection(ids: seq<string>, advertised: seq<string>)
    ensures StrictlySorted(Mutual(ids, advertised))
    ensures forall c :: c in Mutual(ids, advertised) <==> c in ids && c in advertised
  {
    var known := (c: string) => c in ids;
    SortSorts(Filter(advertised, known));
    DedupStrict(Sort(Filter(advertised, known)));
    forall c ensures c in Filter(advertised, known) <==> c in advertised && c in ids {
      FilterMember(advertised, known, c);
    }
  }

  /** Both ends compute the same list from what the other advertises. */
  lemma MutualSymmetric(a: seq<string>, b: seq<string>)
    ensures Mutual(a, b) == Mutual(b, a)
  {
    MutualIsSortedIntersection(a, b);
    MutualIsSortedIntersection(b, a);
    StrictlySortedUnique(Mutual(a, b), Mutual(b, a));
  }
}
