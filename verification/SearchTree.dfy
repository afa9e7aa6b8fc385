/** The directory tree that the parallel search walks, and the sequential search it has to agree with. */
module SearchTree {

  /** A directory entry. A folder carries the permission test `S_IRUSR && S_IXUSR` as one flag. */
  datatype Node = Node(name: string, kind: Kind)
  datatype Kind = Plain | Folder(searchable: bool, listing: seq<Node>)

  /** A directory waiting for or under search: its relative path and what `readdir` yields for it. */
  datatype Job = Job(path: string, listing: seq<Node>)

  /** What the search does that a user can observe: a directory fully scanned, a matching path printed. */
  datatype Event = Scanned(path: string) | Hit(path: string)

  predicate IsDot(name: string) {
    name == "." || name == ".."
  }

  /** `strstr(name, term) != NULL` */
  predicate Contains(name: string, term: string) {
    term <= name || (name != "" && Contains(name[1..], term))
  }

  function Join(path: string, name: string): string {
    path + "/" + name
  }

  /** The events of a plain recursive search, in depth-first order. */
  function Search(term: string, job: Job): seq<Event> {
    SearchListing(term, job.path, job.listing) + [Scanned(job.path)]
  }

  function SearchListing(term: string, path: string, es: seq<Node>): seq<Event>
    decreases es
  {
    if es == [] then [] else SearchEntry(term, path, es[0]) + SearchListing(term, path, es[1..])
  }

  function SearchEntry(term: string, path: string, e: Node): seq<Event>
    decreases e
  {
    if IsDot(e.name) then []
    else match e.kind
      case Plain => if Contains(e.name, term) then [Hit(Join(path, e.name))] else []
      case Folder(searchable, listing) =>
        if searchable
        then SearchListing(term, Join(path, e.name), listing) + [Scanned(Join(path, e.name))]
        else []
  }

  /** The number of matching non-directories below searchable directories. */
  function CountFiles(term: string, es: seq<Node>): nat
    decreases es
  {
    if es == [] then 0 else CountEntry(term, es[0]) + CountFiles(term, es[1..])
  }

  function CountEntry(term: string, e: Node): nat
    decreases e
  {
    if IsDot(e.name) then 0
    else match e.kind
      case Plain => if Contains(e.name, term) then 1 else 0
      case Folder(searchable, listing) => if searchable then CountFiles(term, listing) else 0
  }

  /** The total weight of a log under an arbitrary weighting of events. */
  function Weigh(f: Event -> nat, log: seq<Event>): nat {
    if log == [] then 0 else f(log[0]) + Weigh(f, log[1..])
  }

  lemma {:induction false} WeighConcat(f: Event -> nat, a: seq<Event>, b: seq<Event>)
    ensures Weigh(f, a + b) == Weigh(f, a) + Weigh(f, b)
  {
    if a == [] {
      assert a + b == b;
    } else {
      assert (a + b)[1..] == a[1..] + b;
      WeighConcat(f, a[1..], b);
    }
  }

  function HitWeight(e: Event): nat {
    if e.Hit? then 1 else 0
  }

  function Only(x: Event): Event -> nat {
    e => if e == x then 1 else 0
  }

  /** The recursive count is the number of hits of the recursive search. */
  lemma {:induction false} HitsAreCounted(term: string, path: string, es: seq<Node>)
    ensures Weigh(HitWeight, SearchListing(term, path, es)) == CountFiles(term, es)
    decreases es
  {
    if es != [] {
      var e := es[0];
      WeighConcat(HitWeight, SearchEntry(term, path, e), SearchListing(term, path, es[1..]));
      HitsAreCounted(term, path, es[1..]);
      if !IsDot(e.name) && e.kind.Folder? && e.kind.searchable {
        var sub := Join(path, e.name);
        HitsAreCounted(term, sub, e.kind.listing);
        WeighConcat(HitWeight, SearchListing(term, sub, e.kind.listing), [Scanned(sub)]);
      }
    }
  }

  /** Weighing with an indicator function counts occurrences. */
  lemma {:induction false} WeighCounts(x: Event, log: seq<Event>)
    ensures Weigh(Only(x), log) == multiset(log)[x]
  {
    if log != [] {
      assert log == [log[0]] + log[1..];
      WeighCounts(x, log[1..]);
    }
  }

  // ---- Distinct paths ----

  /** What a file system guarantees: names in a listing are distinct and contain no separator. */
  predicate WellFormed(es: seq<Node>)
    decreases es
  {
    && (forall i :: 0 <= i < |es| ==> '/' !in es[i].name && NodeWellFormed(es[i]))
    && (forall i, j :: 0 <= i < j < |es| ==> es[i].name != es[j].name)
  }

  predicate NodeWellFormed(e: Node)
    decreases e
  {
    e.kind.Folder? ==> WellFormed(e.kind.listing)
  }

  /** `p` is `base` or lies below it. */
  predicate Below(base: string, p: string) {
    base <= p && (|p| == |base| || p[|base|] == '/')
  }

  predicate NoRepeats(log: seq<Event>) {
    forall i, j :: 0 <= i < j < |log| ==> log[i] != log[j]
  }

  lemma {:induction false} ListingEventsBelow(term: string, path: string, es: seq<Node>, x: Event)
    requires x in SearchListing(term, path, es)
    ensures exists i :: 0 <= i < |es| && x in SearchEntry(term, path, es[i])
    ensures |x.path| > |path| && Below(path, x.path)
    decreases es
  {
    if x in SearchEntry(term, path, es[0]) {
      EntryEventsBelow(term, path, es[0], x);
    } else {
      ListingEventsBelow(term, path, es[1..], x);
      var i :| 0 <= i < |es[1..]| && x in SearchEntry(term, path, es[1..][i]);
      assert es[i + 1] == es[1..][i];
    }
  }

  lemma {:induction false} EntryEventsBelow(term: string, path: string, e: Node, x: Event)
    requires x in SearchEntry(term, path, e)
    ensures Below(Join(path, e.name), x.path)
    decreases e
  {
    var sub := Join(path, e.name);
    if e.kind.Folder? && x in SearchListing(term, sub, e.kind.listing) {
      ListingEventsBelow(term, sub, e.kind.listing, x);
    }
  }

  lemma LongerSiblingHasSeparator(path: string, a: string, b: string, p: string)
    requires Below(Join(path, a), p) && Below(Join(path, b), p)
    ensures |a| < |b| ==> '/' in b
    ensures |a| == |b| ==> a == b
  {
    var n := |path| + 1;
    assert a == p[n..n + |a|] && b == p[n..n + |b|];
    if |a| < |b| {
      assert b[|a|] == p[n + |a|] == '/';
    }
  }

  lemma SiblingsAreDisjoint(path: string, a: string, b: string, p: string)
    requires '/' !in a && '/' !in b
    requires Below(Join(path, a), p) && Below(Join(path, b), p)
    ensures a == b
  {
    LongerSiblingHasSeparator(path, a, b, p);
    LongerSiblingHasSeparator(path, b, a, p);
  }

  lemma NoRepeatsConcat(a: seq<Event>, b: seq<Event>)
    requires NoRepeats(a) && NoRepeats(b)
    requires forall x :: x in a ==> x !in b
    ensures NoRepeats(a + b)
  {
    forall i, j | 0 <= i < j < |a + b| ensures (a + b)[i] != (a + b)[j] {
      if i < |a| && j >= |a| {
        assert (a + b)[i] in a && (a + b)[j] in b;
      }
    }
  }

  /** In a well-formed tree the sequential search scans no directory and prints no path twice. */
  lemma {:induction false} SearchListingNoRepeats(term: string, path: string, es: seq<Node>)
    requires WellFormed(es)
    ensures NoRepeats(SearchListing(term, path, es))
    decreases es, 0
  {
    if es != [] {
      var e := es[0];
      SearchListingNoRepeats(term, path, es[1..]);
      SearchEntryNoRepeats(term, path, e);
      forall x | x in SearchEntry(term, path, e) ensures x !in SearchListing(term, path, es[1..]) {
        if x in SearchListing(term, path, es[1..]) {
          ListingEventsBelow(term, path, es[1..], x);
          var i :| 0 <= i < |es[1..]| && x in SearchEntry(term, path, es[1..][i]);
          EntryEventsBelow(term, path, e, x);
          EntryEventsBelow(term, path, es[1..][i], x);
          SiblingsAreDisjoint(path, e.name, es[i + 1].name, x.path);
        }
      }
      NoRepeatsConcat(SearchEntry(term, path, e), SearchListing(term, path, es[1..]));
    }
  }

  lemma {:induction false} SearchEntryNoRepeats(term: string, path: string, e: Node)
    requires NodeWellFormed(e)
    ensures NoRepeats(SearchEntry(term, path, e))
    decreases e
  {
    if e.kind.Folder? {
      SearchJobNoRepeats(term, Job(Join(path, e.name), e.kind.listing));
    }
  }

  lemma {:induction false} SearchJobNoRepeats(term: string, job: Job)
    requires WellFormed(job.listing)
    ensures NoRepeats(Search(term, job))
    decreases job.listing, 1
  {
    SearchListingNoRepeats(term, job.path, job.listing);
    forall x | x in SearchListing(term, job.path, job.listing) ensures x !in [Scanned(job.path)] {
      ListingEventsBelow(term, job.path, job.listing, x);
    }
    NoRepeatsConcat(SearchListing(term, job.path, job.listing), [Scanned(job.path)]);
  }

  lemma NoRepeatsCountsOnce(log: seq<Event>, x: Event)
    requires NoRepeats(log)
    ensures multiset(log)[x] == if x in log then 1 else 0
  {
    if log != [] {
      assert log == [log[0]] + log[1..];
      NoRepeatsCountsOnce(log[1..], x);
    }
  }
}
