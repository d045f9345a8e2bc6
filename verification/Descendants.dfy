/**
 `windowsDescendantsAfterExit` (bin/process-supervisor.js): the descendants of a payload that has exited,
 found in a process snapshot by parent link and creation time, without trusting a process id alone.  The
 snapshot may hold cycles and parent ids that were reused; process ids are unique in it.
 */
module Descendants {
  const DESCENDANT_CREATION_TOLERANCE_MS := 1000

  datatype Process = Process(pid: int, parentPid: int, createdMs: int)

  /** The payload: its process id, when it started and when its exit was observed. */
  datatype Payload = Payload(pid: int, startedAtMs: int, exitObservedAtMs: int)

  predicate UniquePids(processes: seq<Process>) {
    forall i, j :: 0 <= i < j < |processes| ==> processes[i].pid != processes[j].pid
  }

  predicate Eligible(root: Payload, p: Process) { p.pid != root.pid && p.pid > 4 }

  predicate FirstLevel(root: Payload, p: Process) {
    && Eligible(root, p) && p.parentPid == root.pid
    && root.startedAtMs - DESCENDANT_CREATION_TOLERANCE_MS <= p.createdMs <= root.exitObservedAtMs
  }

  predicate Link(root: Payload, parent: Process, child: Process) {
    Eligible(root, child) && child.parentPid == parent.pid && parent.createdMs <= child.createdMs
  }

  /** From a child created in the payload's window, parent to child, creation times never decreasing. */
  predicate IsChain(root: Payload, processes: seq<Process>, chain: seq<Process>) {
    && chain != [] && (forall i :: 0 <= i < |chain| ==> chain[i] in processes)
    && FirstLevel(root, chain[0]) && (forall i :: 0 < i < |chain| ==> Link(root, chain[i - 1], chain[i]))
  }

  /** A chain, spelled out: no system process and not the payload, each the child of the one before and no older, the first created while the payload ran. */
  lemma ChainMeans(root: Payload, processes: seq<Process>, chain: seq<Process>)
    ensures IsChain(root, processes, chain) <==>
              && chain != []
              && (forall i :: 0 <= i < |chain| ==> chain[i] in processes && chain[i].pid != root.pid && chain[i].pid > 4)
              && chain[0].parentPid == root.pid && root.startedAtMs - 1000 <= chain[0].createdMs <= root.exitObservedAtMs
              && (forall i :: 0 < i < |chain| ==> chain[i].parentPid == chain[i - 1].pid && chain[i - 1].createdMs <= chain[i].createdMs)
  {
    if IsChain(root, processes, chain) {
      forall i | 0 <= i < |chain| ensures Eligible(root, chain[i]) { if i > 0 { assert Link(root, chain[i - 1], chain[i]); } }
    }
  }

  ghost predicate Descends(root: Payload, processes: seq<Process>, p: Process) {
    exists chain :: IsChain(root, processes, chain) && chain[|chain| - 1] == p
  }

  // ---------------------------------------------------------------- by parent

  function ChildrenOf(root: Payload, processes: seq<Process>, parent: int): seq<Process> {
    if processes == [] then []
    else
      var last := processes[|processes| - 1];
      ChildrenOf(root, processes[..|processes| - 1], parent)
      + (if Eligible(root, last) && last.parentPid == parent then [last] else [])
  }

  lemma {:induction false} ChildrenAre(root: Payload, processes: seq<Process>, parent: int, p: Process)
    ensures p in ChildrenOf(root, processes, parent) <==> p in processes && Eligible(root, p) && p.parentPid == parent
  {
    if processes != [] {
      var last := |processes| - 1;
      ChildrenAre(root, processes[..last], parent, p);
      assert processes == processes[..last] + [processes[last]];
    }
  }

  method GroupByParent(root: Payload, processes: seq<Process>) returns (byParent: map<int, seq<Process>>)
    ensures forall k :: (if k in byParent then byParent[k] else []) == ChildrenOf(root, processes, k)
  {
    byParent := map[];
    for i := 0 to |processes|
      invariant forall k :: (if k in byParent then byParent[k] else []) == ChildrenOf(root, processes[..i], k)
    {
      assert processes[..i + 1][..i] == processes[..i];
      var item := processes[i];
      if item.pid == root.pid || item.pid <= 4 { continue; }
      var known := if item.parentPid in byParent then byParent[item.parentPid] else [];
      byParent := byParent[item.parentPid := known + [item]];
    }
    assert processes[..|processes|] == processes;
  }

  // ---------------------------------------------------------------- chains

  lemma ChainStarts(root: Payload, processes: seq<Process>, p: Process)
    requires p in processes && FirstLevel(root, p)
    ensures Descends(root, processes, p)
  {
    assert IsChain(root, processes, [p]);
  }

  lemma ChainGrows(root: Payload, processes: seq<Process>, parent: Process, child: Process)
    requires Descends(root, processes, parent) && child in processes && Link(root, parent, child)
    ensures Descends(root, processes, child)
  {
    var chain :| IsChain(root, processes, chain) && chain[|chain| - 1] == parent;
    assert IsChain(root, processes, chain + [child]);
  }

  /** Every first-level child is in the set, and every child linked to a member. */
  predicate ClosedUnder(root: Payload, processes: seq<Process>, selected: set<Process>) {
    && (forall p :: p in processes && FirstLevel(root, p) ==> p in selected)
    && (forall parent, child :: parent in selected && child in processes && Link(root, parent, child) ==> child in selected)
  }

  lemma {:induction false} ChainIsInside(root: Payload, processes: seq<Process>, selected: set<Process>, chain: seq<Process>, i: nat)
    requires ClosedUnder(root, processes, selected) && IsChain(root, processes, chain) && i < |chain|
    ensures chain[i] in selected
  {
    if i > 0 { ChainIsInside(root, processes, selected, chain, i - 1); }
  }

  // ---------------------------------------------------------------- the search

  function Pids(ps: seq<Process>): set<int> { set p | p in ps :: p.pid }

  predicate NoRepeats(ps: seq<Process>) { forall i, j :: 0 <= i < j < |ps| ==> ps[i].pid != ps[j].pid }

  /** What the queue and the selection hold between two turns of the loop. */
  ghost predicate Searching(root: Payload, processes: seq<Process>, selected: seq<Process>, queue: seq<Process>) {
    && NoRepeats(selected)
    && (forall p :: p in selected || p in queue ==> p in processes && Descends(root, processes, p))
    && (forall p :: p in processes && FirstLevel(root, p) ==> p in selected || p in queue)
    && (forall parent, child :: parent in selected && child in processes && Link(root, parent, child) ==> child in selected || child in queue)
  }

  lemma SamePidSame(processes: seq<Process>, a: Process, b: Process)
    requires UniquePids(processes) && a in processes && b in processes && a.pid == b.pid
    ensures a == b
  {
  }

  /** The first level: the payload's children created in its window. */
  method FirstQueue(root: Payload, processes: seq<Process>, children: seq<Process>) returns (queue: seq<Process>)
    requires forall p :: p in children <==> p in processes && Eligible(root, p) && p.parentPid == root.pid
    ensures forall p :: p in queue <==> p in processes && FirstLevel(root, p)
  {
    queue := [];
    for i := 0 to |children|
      invariant forall p :: p in queue <==> p in children[..i] && FirstLevel(root, p)
    {
      var item := children[i];
      assert children[..i + 1] == children[..i] + [item];
      if root.startedAtMs - DESCENDANT_CREATION_TOLERANCE_MS <= item.createdMs && item.createdMs <= root.exitObservedAtMs {
        assert item in children;
        queue := queue + [item];
      }
    }
    assert children[..|children|] == children;
  }

  /** The children of a selected process that are not selected yet go to the end of the queue. */
  method Enqueue(item: Process, children: seq<Process>, seen: set<int>, queue: seq<Process>) returns (longer: seq<Process>)
    ensures queue <= longer
    ensures forall p :: p in longer <==> p in queue || (p in children && item.createdMs <= p.createdMs && p.pid !in seen)
  {
    longer := queue;
    for i := 0 to |children|
      invariant queue <= longer
      invariant forall p :: p in longer <==> p in queue || (p in children[..i] && item.createdMs <= p.createdMs && p.pid !in seen)
    {
      var child := children[i];
      assert children[..i + 1] == children[..i] + [child];
      if item.createdMs <= child.createdMs && child.pid !in seen { longer := longer + [child]; }
    }
    assert children[..|children|] == children;
  }

  lemma SearchSkips(root: Payload, processes: seq<Process>, selected: seq<Process>, queue: seq<Process>)
    requires UniquePids(processes) && Searching(root, processes, selected, queue) && queue != [] && queue[0].pid in Pids(selected)
    ensures Searching(root, processes, selected, queue[1..])
  {
    var same :| same in selected && same.pid == queue[0].pid;
    SamePidSame(processes, same, queue[0]);
    assert queue == [queue[0]] + queue[1..];
  }

  /** A child of the selected process that is not selected yet. */
  predicate Waits(root: Payload, processes: seq<Process>, item: Process, selected: seq<Process>, p: Process) {
    p in ChildrenOf(root, processes, item.pid) && item.createdMs <= p.createdMs && p.pid !in Pids(selected + [item])
  }

  lemma SearchSelects(root: Payload, processes: seq<Process>, selected: seq<Process>, queue: seq<Process>, longer: seq<Process>)
    requires UniquePids(processes) && Searching(root, processes, selected, queue) && queue != [] && queue[0].pid !in Pids(selected)
    requires forall p :: p in longer <==> p in queue[1..] || Waits(root, processes, queue[0], selected, p)
    ensures Searching(root, processes, selected + [queue[0]], longer)
  {
    var item := queue[0];
    var more := selected + [item];
    assert queue == [item] + queue[1..];
    forall p | p in longer ensures p in processes && Descends(root, processes, p) {
      if p !in queue[1..] {
        ChildrenAre(root, processes, item.pid, p);
        ChainGrows(root, processes, item, p);
      }
    }
    forall parent, child | parent in more && child in processes && Link(root, parent, child) ensures child in more || child in longer {
      if parent == item {
        ChildrenAre(root, processes, item.pid, child);
        if child.pid in Pids(more) {
          var same :| same in more && same.pid == child.pid;
          SamePidSame(processes, same, child);
        }
      }
    }
  }

  function Unseen(processes: seq<Process>, selected: seq<Process>): set<int> { Pids(processes) - Pids(selected) }

  lemma DescendantIsInside(root: Payload, processes: seq<Process>, selected: set<Process>, p: Process)
    requires ClosedUnder(root, processes, selected) && Descends(root, processes, p)
    ensures p in selected && Eligible(root, p)
  {
    var chain :| IsChain(root, processes, chain) && chain[|chain| - 1] == p;
    var last := |chain| - 1;
    ChainIsInside(root, processes, selected, chain, last);
    if last > 0 { assert Link(root, chain[last - 1], chain[last]); }
  }

  lemma SearchEnds(root: Payload, processes: seq<Process>, selected: seq<Process>, p: Process)
    requires Searching(root, processes, selected, [])
    ensures p in selected <==> Descends(root, processes, p)
    ensures p in selected ==> p.pid != root.pid
  {
    var inside := set q | q in selected;
    if Descends(root, processes, p) { DescendantIsInside(root, processes, inside, p); }
  }

  lemma Selecting(processes: seq<Process>, selected: seq<Process>, item: Process)
    requires item in processes && item.pid !in Pids(selected)
    ensures |Unseen(processes, selected + [item])| < |Unseen(processes, selected)|
  {
    assert item.pid in Unseen(processes, selected);
    assert Pids(selected + [item]) == Pids(selected) + {item.pid};
    assert Unseen(processes, selected + [item]) == Unseen(processes, selected) - {item.pid};
  }

  /** One process off the queue: skipped if its id was selected before, selected otherwise, with its children queued. */
  method Turn(root: Payload, processes: seq<Process>, byParent: map<int, seq<Process>>, selected: seq<Process>, seen: set<int>, queue: seq<Process>)
    returns (chosen: seq<Process>, marked: set<int>, rest: seq<Process>)
    requires UniquePids(processes) && Searching(root, processes, selected, queue) && seen == Pids(selected) && queue != []
    requires forall k :: (if k in byParent then byParent[k] else []) == ChildrenOf(root, processes, k)
    ensures Searching(root, processes, chosen, rest) && marked == Pids(chosen)
    ensures (chosen == selected && |rest| < |queue|) || |Unseen(processes, chosen)| < |Unseen(processes, selected)|
  {
    var item := queue[0];
    if item.pid in seen {
      SearchSkips(root, processes, selected, queue);
      return selected, seen, queue[1..];
    }
    marked := seen + {item.pid};
    chosen := selected + [item];
    assert marked == Pids(chosen);
    var children := if item.pid in byParent then byParent[item.pid] else [];
    rest := Enqueue(item, children, marked, queue[1..]);
    SearchSelects(root, processes, selected, queue, rest);
    Selecting(processes, selected, item);
  }

  /**
   The search ends, repeats nothing, never selects the payload's own id, and selects exactly the processes
   that a chain links to the payload; without a known payload, nothing.
   */
  method DescendantsAfterExit(root: Payload, processes: seq<Process>) returns (selected: seq<Process>)
    requires UniquePids(processes)
    ensures NoRepeats(selected)
    ensures forall p :: p in selected ==> p.pid != root.pid
    ensures forall p :: p in selected <==>
              root.pid > 0 && root.startedAtMs != 0 && root.exitObservedAtMs != 0 && Descends(root, processes, p)
  {
    selected := [];
    if root.pid <= 0 || root.startedAtMs == 0 || root.exitObservedAtMs == 0 { return; }
    var byParent := GroupByParent(root, processes);
    var children := if root.pid in byParent then byParent[root.pid] else [];
    forall p ensures p in children <==> p in processes && Eligible(root, p) && p.parentPid == root.pid {
      ChildrenAre(root, processes, root.pid, p);
    }
    var queue := FirstQueue(root, processes, children);
    forall p | p in queue ensures Descends(root, processes, p) { ChainStarts(root, processes, p); }
    var seen: set<int> := {};
    while queue != []
      invariant Searching(root, processes, selected, queue) && seen == Pids(selected)
      decreases |Unseen(processes, selected)|, |queue|
    {
      selected, seen, queue := Turn(root, processes, byParent, selected, seen, queue);
    }
    forall p ensures (p in selected <==> Descends(root, processes, p)) && (p in selected ==> p.pid != root.pid) {
      SearchEnds(root, processes, selected, p);
    }
  }
}
