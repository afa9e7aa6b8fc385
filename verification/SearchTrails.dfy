/** What the search must find, said without searching: the entries that a trail of names leads to. */
module SearchTrails {
  import opened SearchTree

  predicate OccursAt(name: string, term: string, i: nat) {
    i + |term| <= |name| && name[i..i + |term|] == term
  }

  /** `Contains` is the substring test. */
  lemma {:induction false} ContainsIsSubstring(name: string, term: string)
    ensures Contains(name, term) <==> exists i :: OccursAt(name, term, i)
  {
    if term <= name {
      assert OccursAt(name, term, 0);
    } else if name != "" {
      ContainsIsSubstring(name[1..], term);
      if i: nat :| OccursAt(name[1..], term, i) {
        assert name[1..][i..i + |term|] == name[i + 1..i + 1 + |term|];
        assert OccursAt(name, term, i + 1);
      }
      if i: nat :| OccursAt(name, term, i) {
        assert i > 0 && name[1..][i - 1..i - 1 + |term|] == name[i..i + |term|];
        assert OccursAt(name[1..], term, i - 1);
      }
    }
  }

  /** From entry to entry, each in the listing of the one before, through searchable directories only and never through
      `.` or `..`. */
  predicate Leads(es: seq<Node>, trail: seq<Node>)
    decreases |trail|
  {
    && trail != [] && trail[0] in es && trail[0].name != "." && trail[0].name != ".."
    && (|trail| > 1 ==>
        trail[0].kind.Folder? && trail[0].kind.searchable && Leads(trail[0].kind.listing, trail[1..]))
  }

  function PathOf(base: string, trail: seq<Node>): string
    decreases |trail|
  {
    if trail == [] then base else PathOf(base + "/" + trail[0].name, trail[1..])
  }

  /** The trail ends at a file whose name contains the term, for a hit, or at a searchable directory. */
  ghost predicate Ends(term: string, trail: seq<Node>, x: Event)
    requires trail != []
  {
    var last := trail[|trail| - 1];
    match x
    case Hit(_) => last.kind.Plain? && exists i :: OccursAt(last.name, term, i)
    case Scanned(_) => last.kind.Folder? && last.kind.searchable
  }

  ghost predicate TrailTo(term: string, base: string, es: seq<Node>, trail: seq<Node>, x: Event) {
    Leads(es, trail) && Ends(term, trail, x) && x.path == PathOf(base, trail)
  }

  lemma {:induction false} ListingHasTrail(term: string, base: string, es: seq<Node>, x: Event)
    returns (trail: seq<Node>)
    requires x in SearchListing(term, base, es)
    ensures TrailTo(term, base, es, trail, x)
    decreases es
  {
    if x in SearchEntry(term, base, es[0]) {
      trail := EntryHasTrail(term, base, es[0], x);
    } else {
      trail := ListingHasTrail(term, base, es[1..], x);
    }
  }

  lemma {:induction false} EntryHasTrail(term: string, base: string, e: Node, x: Event) returns (trail: seq<Node>)
    requires x in SearchEntry(term, base, e)
    ensures TrailTo(term, base, [e], trail, x)
    decreases e
  {
    ContainsIsSubstring(e.name, term);
    var sub := Join(base, e.name);
    assert PathOf(base, [e]) == sub;
    if e.kind.Folder? && x in SearchListing(term, sub, e.kind.listing) {
      var rest := ListingHasTrail(term, sub, e.kind.listing, x);
      trail := [e] + rest;
      assert trail[1..] == rest;
    } else {
      trail := [e];
    }
  }

  lemma {:induction false} TrailIsInListing(term: string, base: string, es: seq<Node>, trail: seq<Node>, x: Event)
    requires TrailTo(term, base, es, trail, x)
    ensures x in SearchListing(term, base, es)
    decreases |trail|
  {
    var e := trail[0];
    ContainsIsSubstring(e.name, term);
    assert PathOf(base, [e]) == Join(base, e.name);
    if |trail| > 1 {
      TrailIsInListing(term, Join(base, e.name), e.kind.listing, trail[1..], x);
    } else {
      assert trail == [e];
    }
    EntryIsInListing(term, base, es, e, x);
  }

  lemma {:induction false} EntryIsInListing(term: string, base: string, es: seq<Node>, e: Node, x: Event)
    requires e in es && x in SearchEntry(term, base, e)
    ensures x in SearchListing(term, base, es)
  {
    if e != es[0] { EntryIsInListing(term, base, es[1..], e, x); }
  }

  /** The sequential search scans its root and whatever directories trails lead to, prints the matching files that
      trails lead to, and nothing else. */
  lemma SearchFindsExactly(term: string, job: Job, x: Event)
    ensures x in Search(term, job)
       <==> x == Scanned(job.path) || exists trail :: TrailTo(term, job.path, job.listing, trail, x)
  {
    if x in SearchListing(term, job.path, job.listing) {
      var trail := ListingHasTrail(term, job.path, job.listing, x);
    }
    if trail :| TrailTo(term, job.path, job.listing, trail, x) {
      TrailIsInListing(term, job.path, job.listing, trail, x);
    }
  }
}
