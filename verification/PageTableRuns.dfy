/** Whole runs of page-table operations. */
module PageTableRuns {
  import opened Words
  import opened PageTable
  import opened PhysicalMemory

  /** One operation. It goes through just when the nodes then needed fit in memory. */
  method RunOp(mem: Memory, op: Op) returns (ok: bool, answer: nat)
    requires mem.Valid() && LegalOp(mem.trie.at.Keys, op)
    modifies mem, mem.pages
    ensures ok <==> |NodesAfter(old(mem.trie).at.Keys, op)| <= NPAGES
    ensures ok ==> mem.Valid() && mem.trie.at.Keys == NodesAfter(old(mem.trie).at.Keys, op)
    ensures ok ==> mem.table == TableAfter(old(mem.table), op) && answer == OpAnswer(old(mem.table), op)
    ensures mem.KeepsPages()
  {
    ok, answer := true, 0;
    mem.FramesAreNodes();
    mem.NextRootIsNew();
    match op
    case Allocate =>
      var r := mem.NewTable();
      ok := r.Frame?;
    case Update(pt, vpn, ppn) =>
      var died := mem.PageTableUpdate(pt, vpn, ppn);
      ok := !died;
    case Query(pt, vpn) =>
      answer := mem.PageTableQuery(pt, vpn);
  }

  /** Operation `t` is the first whose nodes do not fit. */
  ghost predicate OverflowsAt(keys: set<Place>, ops: seq<Op>, t: nat) {
    t < |ops| && |RunNodes(keys, ops[..t])| <= NPAGES < |RunNodes(keys, ops[..t + 1])|
  }

  lemma OverflowsLater(keys: set<Place>, ops: seq<Op>)
    requires ops != []
    ensures forall t :: OverflowsAt(keys, ops[..|ops| - 1], t) ==> OverflowsAt(keys, ops, t)
    ensures |RunNodes(keys, ops[..|ops| - 1])| <= NPAGES < |RunNodes(keys, ops)| ==> OverflowsAt(keys, ops, |ops| - 1)
  {
    var n := |ops| - 1;
    assert ops[..n + 1] == ops;
    forall t: nat | OverflowsAt(keys, ops[..n], t)
      ensures OverflowsAt(keys, ops, t)
    {
      assert ops[..n][..t] == ops[..t] && ops[..n][..t + 1] == ops[..t + 1];
    }
  }

  /** A run of updates, queries and allocations refines the run over the map: the same answers and the same map, with
      exactly the nodes that the run needs. It goes through just when these fit in memory, and otherwise ends at the
      first operation whose nodes do not fit, all answers until then being right. */
  method RunOps(mem: Memory, ops: seq<Op>) returns (ok: bool, answers: seq<nat>)
    requires mem.Valid() && LegalRun(mem.trie.at.Keys, ops)
    modifies mem, mem.pages
    ensures ok <==> |RunNodes(old(mem.trie).at.Keys, ops)| <= NPAGES
    ensures ok ==> mem.Valid() && mem.trie.at.Keys == RunNodes(old(mem.trie).at.Keys, ops)
    ensures ok ==> mem.table == RunTable(old(mem.table), ops) && answers == RunAnswers(old(mem.table), ops)
    ensures !ok ==> answers <= RunAnswers(old(mem.table), ops) && OverflowsAt(old(mem.trie).at.Keys, ops, |answers|)
    ensures mem.KeepsPages()
    decreases |ops|
  {
    mem.FramesAreNodes();
    if ops == [] { return true, []; }
    var op, earlier := ops[|ops| - 1], ops[..|ops| - 1];
    LegalRunEnd(mem.trie.at.Keys, ops);
    NodesGrow(RunNodes(mem.trie.at.Keys, earlier), op);
    OverflowsLater(mem.trie.at.Keys, ops);
    ok, answers := RunOps(mem, earlier);
    if !ok { return; }
    ghost var was := mem.pages;
    var answer: nat;
    ok, answer := RunOp(mem, op);
    if ok { answers := answers + [answer]; }
    forall k | 0 <= k < |mem.pages|
      ensures if k < |old(mem.pages)| then mem.pages[k] == old(mem.pages)[k] else fresh(mem.pages[k])
    {
      assert k < |was| ==> mem.pages[k] == was[k];
    }
  }

  /** Any legal run from an empty memory, over any number of tables: it goes through just when the frames it needs
      exist, and then exactly these are in use. Each query answers with the latest update to its page, or NO_MAPPING.
      */
  method FromEmptyMemory(ops: seq<Op>) returns (mem: Memory, ok: bool, answers: seq<nat>)
    requires LegalRun({}, ops)
    ensures ok <==> FramesNeeded(ops) <= 1024 * 1024
    ensures ok ==> mem.nalloc == FramesNeeded(ops)
    ensures if ok then |answers| == |ops| else OverflowsAt({}, ops, |answers|)
    ensures forall i :: 0 <= i < |answers| && ops[i].Query? ==>
      answers[i] == LatestAnswer(ops[..i], ops[i].pt, ops[i].vpn, NO_MAPPING)
  {
    mem := new Memory();
    ok, answers := RunOps(mem, ops);
    RunAnswersAreLatest(map[], ops);
    FramesAfterRun(ops);
    if ok { mem.FramesAreNodes(); }
  }

  /** Isolation: no legal run that updates only other tables, new ones included, changes what any page of this table
      maps to. */
  method RunElsewhere(mem: Memory, pt: nat, ops: seq<Op>) returns (ok: bool, answers: seq<nat>)
    requires mem.Valid() && mem.IsRoot(pt) && LegalRun(mem.trie.at.Keys, ops)
    requires forall op :: op in ops && op.Update? ==> op.pt != pt
    modifies mem, mem.pages
    ensures ok <==> |RunNodes(old(mem.trie).at.Keys, ops)| <= NPAGES
    ensures ok ==> mem.Valid() && mem.IsRoot(pt) && mem.trie.at.Keys == RunNodes(old(mem.trie).at.Keys, ops)
    ensures ok ==> mem.table == RunTable(old(mem.table), ops) && answers == RunAnswers(old(mem.table), ops)
    ensures ok ==> forall v: Word :: Lookup(mem.table, pt, v) == Lookup(old(mem.table), pt, v)
    ensures mem.KeepsPages()
  {
    RunNodesGrow(mem.trie.at.Keys, ops);
    ghost var table := mem.table;
    ok, answers := RunOps(mem, ops);
    OtherTablesDoNotMatter(table, ops, pt);
  }

  /** The same through the operations themselves: a query before and a query after such a run agree. */
  method QueryAround(mem: Memory, pt: nat, vpn: Word, ops: seq<Op>) 
    returns (ok: bool, before: Word, after: Word, answers: seq<nat>)
    requires mem.Valid() && mem.IsRoot(pt) && LegalRun(mem.trie.at.Keys, ops)
    requires forall op :: op in ops && op.Update? ==> op.pt != pt
    modifies mem, mem.pages
    ensures ok <==> |RunNodes(old(mem.trie).at.Keys, ops)| <= NPAGES
    ensures ok ==> mem.Valid() && mem.trie.at.Keys == RunNodes(old(mem.trie).at.Keys, ops)
    ensures ok ==> mem.table == RunTable(old(mem.table), ops) && answers == RunAnswers(old(mem.table), ops)
    ensures before == Lookup(old(mem.table), pt, vpn) && (ok ==> after == before)
  {
    before := mem.PageTableQuery(pt, vpn);
    ok, answers := RunElsewhere(mem, pt, ops);
    after := before;
    if ok { after := mem.PageTableQuery(pt, vpn); }
  }
}
