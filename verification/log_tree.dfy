/**
 * Navigation of the conversation tree (`src/lib/logic/log-tree-manager.ts`).
 *
 * The source keeps the nodes in a `Map<id, Log>`; here the map is the sequence of its
 * values in insertion order, which is also the order `Array.from(logs.values())` sees.
 * `Get` is `logs.get(id)`: the entry whose key is `id`.  The session keeps ids unique
 * (`UniqueIds`), and then the first entry with the id is the only one.
 */
module LogTree {
  import opened Types
  import opened Lists
  import opened Order

  /** At most this many `activeChildId` hops are followed from the root. */
  const MaxDepth: nat := 10000

  predicate UniqueIds(logs: seq<Log>) {
    forall i, j :: 0 <= i < j < |logs| ==> logs[i].id != logs[j].id
  }

  predicate HasId(logs: seq<Log>, id: Id) {
    exists i :: 0 <= i < |logs| && logs[i].id == id
  }

  /** Position of the entry with key `id`, or -1. */
  function IndexOfId(logs: seq<Log>, id: Id): (k: int)
    ensures -1 <= k < |logs|
    ensures k >= 0 ==> logs[k].id == id && forall j :: 0 <= j < k ==> logs[j].id != id
    ensures k == -1 <==> !HasId(logs, id)
  {
    if |logs| == 0 then -1
    else if logs[0].id == id then 0
    else
      var k := IndexOfId(logs[1..], id);
      assert k >= 0 ==> logs[k + 1] == logs[1..][k];
      if k < 0 then -1 else k + 1
  }

  /** `logs.get(id)`. */
  function Get(logs: seq<Log>, id: Id): (r: Option<Log>)
    ensures r.Some? <==> HasId(logs, id)
    ensures r.Some? ==> r.value in logs && r.value.id == id
  {
    var k := IndexOfId(logs, id);
    if k < 0 then None else Some(logs[k])
  }

  lemma GetUnique(logs: seq<Log>, i: int)
    requires UniqueIds(logs) && 0 <= i < |logs|
    ensures Get(logs, logs[i].id) == Some(logs[i])
  {
  }

  function Timestamp(l: Log): string {
    l.timestamp
  }

  predicate IsRoot(l: Log) {
    !Present(l.parentId)
  }

  /**
   * The root the active path starts from: the first node in map order whose
   * `parentId` is falsy, or else the node that sorts first by timestamp.
   */
  function FindRoot(logs: seq<Log>): (r: Option<Log>)
    ensures r.None? <==> |logs| == 0
    ensures r.Some? ==> r.value in logs
  {
    if |logs| == 0 then None
    else
      var k := FindIndex(logs, IsRoot);
      if k >= 0 then Some(logs[k]) else Some(EarliestByTimestamp(logs))
  }

  /**
   * The head of `logs` sorted (stably) by timestamp: the first node in map order
   * among those with the earliest timestamp.
   */
  function EarliestByTimestamp(logs: seq<Log>): (r: Log)
    requires |logs| > 0
    ensures r in logs
  {
    if |logs| == 1 then logs[0]
    else
      var h := EarliestByTimestamp(logs[1..]);
      if Lt(h.timestamp, logs[0].timestamp) then h else logs[0]
  }

  /** `EarliestByTimestamp` is the first element of the stable sort by timestamp. */
  lemma {:induction false} EarliestIsSortedHead(logs: seq<Log>)
    requires |logs| > 0
    ensures EarliestByTimestamp(logs) == SortBy(logs, Timestamp, false)[0]
  {
    if |logs| > 1 {
      EarliestIsSortedHead(logs[1..]);
    }
  }

  /** The nodes reached from `cur` by following `activeChildId`, having taken `depth` hops already. */
  function Walk(logs: seq<Log>, cur: Log, depth: nat): seq<Log>
    decreases MaxDepth - depth
  {
    if Present(cur.activeChildId) && depth < MaxDepth then
      match Get(logs, cur.activeChildId.value)
      case Some(child) => [child] + Walk(logs, child, depth + 1)
      case None => []
    else []
  }

  /** What `calculateActivePath` returns: the root followed by its active descendants. */
  function ActivePath(logs: seq<Log>): seq<Log>
  {
    match FindRoot(logs)
    case None => []
    case Some(root) => [root] + Walk(logs, root, 0)
  }

  /** `calculateActivePath`, with the source's loop over `current` and `depth`. */
  method CalculateActivePath(logs: seq<Log>) returns (path: seq<Log>)
    ensures path == ActivePath(logs)
  {
    if |logs| == 0 {
      return [];
    }
    var root := FindRoot(logs).value;
    path := [root];
    var current := root;
    var depth: nat := 0;
    while Present(current.activeChildId) && depth < MaxDepth
      invariant depth <= MaxDepth
      invariant path + Walk(logs, current, depth) == [root] + Walk(logs, root, 0)
      decreases MaxDepth - depth
    {
      var child := Get(logs, current.activeChildId.value);
      if child.Some? {
        WalkStep(logs, current, depth);
        assert path + ([child.value] + Walk(logs, child.value, depth + 1))
            == (path + [child.value]) + Walk(logs, child.value, depth + 1);
        path := path + [child.value];
        current := child.value;
        depth := depth + 1;
      } else {
        break;
      }
    }
    WalkEnd(logs, current, depth);
    assert path + [] == path;
    ActivePathStart(logs);
  }

  /** One hop of the walk: the named child, then the walk from it. */
  lemma WalkStep(logs: seq<Log>, cur: Log, depth: nat)
    requires Present(cur.activeChildId) && depth < MaxDepth && Get(logs, cur.activeChildId.value).Some?
    ensures var child := Get(logs, cur.activeChildId.value).value;
      Walk(logs, cur, depth) == [child] + Walk(logs, child, depth + 1)
  {
  }

  /** The walk ends at the hop guard, at a node without an active child, or at a dangling id. */
  lemma WalkEnd(logs: seq<Log>, cur: Log, depth: nat)
    requires !Present(cur.activeChildId) || depth >= MaxDepth || Get(logs, cur.activeChildId.value).None?
    ensures Walk(logs, cur, depth) == []
  {
  }

  /** A non-empty map's path is its root followed by the walk from it. */
  lemma ActivePathStart(logs: seq<Log>)
    requires |logs| > 0
    ensures ActivePath(logs) == [FindRoot(logs).value] + Walk(logs, FindRoot(logs).value, 0)
  {
  }

  /** `b` is the node that `a.activeChildId` names. */
  predicate Linked(logs: seq<Log>, a: Log, b: Log) {
    Present(a.activeChildId) && Get(logs, a.activeChildId.value) == Some(b)
  }

  /** Every node of `w` is the active child of the node before it, the first one of `start`. */
  predicate Chain(logs: seq<Log>, start: Log, w: seq<Log>) {
    && (|w| > 0 ==> Linked(logs, start, w[0]))
    && (forall i :: 0 < i < |w| ==> Linked(logs, w[i - 1], w[i]))
  }

  /** The walk stops short of the hop guard only where the last node has no reachable active child. */
  predicate Stopped(logs: seq<Log>, last: Log) {
    !Present(last.activeChildId) || Get(logs, last.activeChildId.value).None?
  }

  lemma {:induction false} WalkProperties(logs: seq<Log>, cur: Log, depth: nat)
    requires depth <= MaxDepth
    ensures |Walk(logs, cur, depth)| <= MaxDepth - depth
    ensures forall l :: l in Walk(logs, cur, depth) ==> l in logs
    ensures Chain(logs, cur, Walk(logs, cur, depth))
    ensures |Walk(logs, cur, depth)| < MaxDepth - depth ==>
      Stopped(logs, if |Walk(logs, cur, depth)| == 0 then cur else Last(Walk(logs, cur, depth)))
    decreases MaxDepth - depth
  {
    if Present(cur.activeChildId) && depth < MaxDepth {
      var c := Get(logs, cur.activeChildId.value);
      if c.Some? {
        var child := c.value;
        WalkProperties(logs, child, depth + 1);
        var rest := Walk(logs, child, depth + 1);
        var w := Walk(logs, cur, depth);
        assert w == [child] + rest;
        forall i | 0 < i < |w| ensures Linked(logs, w[i - 1], w[i]) {
          if i > 1 { assert w[i - 1] == rest[i - 2] && w[i] == rest[i - 1]; }
        }
        if |rest| > 0 { assert Last(w) == Last(rest); }
      }
    }
  }

  function Last(s: seq<Log>): Log
    requires |s| > 0
  {
    s[|s| - 1]
  }

  /**
   * The active path is empty exactly for an empty map; every element is a node of
   * the map; each element after the first is the `activeChildId` target of the one
   * before; it holds at most 10 001 nodes; and when it is shorter than that, its last
   * node has no active child or points at a missing one.
   */
  lemma ActivePathProperties(logs: seq<Log>)
    ensures ActivePath(logs) == [] <==> |logs| == 0
    ensures |ActivePath(logs)| <= MaxDepth + 1
    ensures forall l :: l in ActivePath(logs) ==> l in logs
    ensures forall i :: 0 < i < |ActivePath(logs)| ==> Linked(logs, ActivePath(logs)[i - 1], ActivePath(logs)[i])
    ensures 0 < |ActivePath(logs)| <= MaxDepth ==> Stopped(logs, Last(ActivePath(logs)))
  {
    var p := ActivePath(logs);
    if |logs| > 0 {
      var root := FindRoot(logs).value;
      WalkProperties(logs, root, 0);
      var w := Walk(logs, root, 0);
      assert p == [root] + w;
      forall i | 0 < i < |p| ensures Linked(logs, p[i - 1], p[i]) {
        assert p[i] == w[i - 1];
        if i > 1 { assert p[i - 1] == w[i - 2]; }
      }
      if |w| > 0 { assert Last(p) == Last(w); }
    }
  }

  /**
   * The path starts at the first node in map order whose `parentId` is falsy; when
   * every node has a parent it starts at a node with the earliest timestamp, the
   * first such node in map order.
   */
  lemma ActivePathRoot(logs: seq<Log>)
    requires |logs| > 0
    ensures var p := ActivePath(logs);
      && |p| > 0
      && ((exists i :: 0 <= i < |logs| && IsRoot(logs[i])) ==>
            IsRoot(p[0]) && exists i :: 0 <= i < |logs| && logs[i] == p[0] && forall j :: 0 <= j < i ==> !IsRoot(logs[j]))
      && ((forall i :: 0 <= i < |logs| ==> !IsRoot(logs[i])) ==>
            && (forall l :: l in logs ==> Le(p[0].timestamp, l.timestamp))
            && exists i :: 0 <= i < |logs| && logs[i] == p[0] && forall j :: 0 <= j < i ==> Lt(p[0].timestamp, logs[j].timestamp))
  {
    var p := ActivePath(logs);
    var root := FindRoot(logs).value;
    assert p[0] == root;
    var k := FindIndex(logs, IsRoot);
    if k < 0 {
      EarliestIsSortedHead(logs);
      SortByHeadExtreme(logs, Timestamp, false);
      SortByHeadFirst(logs, Timestamp, false);
    }
  }

  /** A two-node cycle of `activeChildId` links: the active path visits the first node again. */
  lemma ActivePathMayRepeat(a: Log, b: Log)
    requires a.id != b.id && a.id != "" && b.id != "" && !Present(a.parentId)
    requires a.activeChildId == Some(b.id) && b.activeChildId == Some(a.id)
    ensures var p := ActivePath([a, b]); |p| == MaxDepth + 1 && p[0] == a && p[1] == b && p[2] == a
  {
    var logs := [a, b];
    assert IsRoot(logs[0]);
    assert FindRoot(logs) == Some(a);
    GetUnique(logs, 0);
    GetUnique(logs, 1);
    var w := Walk(logs, a, 0);
    assert w == [b] + Walk(logs, b, 1);
    assert Walk(logs, b, 1) == [a] + Walk(logs, a, 2);
    CycleWalkLength(a, b, 0);
  }

  /** Along a two-node cycle the walk only stops at the hop guard. */
  lemma {:induction false} CycleWalkLength(a: Log, b: Log, depth: nat)
    requires a.id != b.id && a.id != "" && b.id != "" && depth <= MaxDepth
    requires a.activeChildId == Some(b.id) && b.activeChildId == Some(a.id)
    ensures |Walk([a, b], a, depth)| == MaxDepth - depth
    ensures |Walk([a, b], b, depth)| == MaxDepth - depth
    decreases MaxDepth - depth
  {
    var logs := [a, b];
    GetUnique(logs, 0);
    GetUnique(logs, 1);
    if depth < MaxDepth {
      CycleWalkLength(a, b, depth + 1);
    }
  }

  // ---------------------------------------------------------------- siblings

  /** The nodes with the given `parentId` (strict equality, so all roots are siblings), oldest first. */
  function Siblings(logs: seq<Log>, parentId: Option<Id>): (s: seq<Log>)
    ensures forall i :: 0 <= i < |s| ==> s[i] in logs && s[i].parentId == parentId
  {
    var f := Filter(logs, (l: Log) => l.parentId == parentId);
    SortByMembers(f, Timestamp, false);
    var s := SortBy(f, Timestamp, false);
    assert forall i :: 0 <= i < |s| ==> s[i] in logs && s[i].parentId == parentId by {
      forall i | 0 <= i < |s| ensures s[i] in logs && s[i].parentId == parentId {
        assert s[i] in f;
        var j :| 0 <= j < |f| && f[j] == s[i];
      }
    }
    s
  }

  /** Every node with that `parentId` is listed among the siblings. */
  lemma SiblingsComplete(logs: seq<Log>, parentId: Option<Id>, l: Log)
    requires l in logs && l.parentId == parentId
    ensures l in Siblings(logs, parentId)
  {
    var f := Filter(logs, (l: Log) => l.parentId == parentId);
    SortByMembers(f, Timestamp, false);
    var j :| 0 <= j < |logs| && logs[j] == l;
    assert l in f;
  }

  /** Siblings are listed oldest first. */
  lemma SiblingsSorted(logs: seq<Log>, parentId: Option<Id>)
    ensures Sorted(Siblings(logs, parentId), Timestamp, false)
  {
    SortBySorted(Filter(logs, (l: Log) => l.parentId == parentId), Timestamp, false);
  }

  function IdIs(id: Id): Log -> bool {
    (l: Log) => l.id == id
  }

  /** Position of `log` among its siblings; always found since a node is its own sibling. */
  function SiblingIndex(logs: seq<Log>, log: Log): (k: int)
    requires log in logs
    ensures 0 <= k < |Siblings(logs, log.parentId)|
    ensures Siblings(logs, log.parentId)[k].id == log.id
    ensures forall j :: 0 <= j < k ==> Siblings(logs, log.parentId)[j].id != log.id
  {
    var s := Siblings(logs, log.parentId);
    SiblingsComplete(logs, log.parentId, log);
    assert IdIs(log.id)(log);
    FindIndex(s, IdIs(log.id))
  }

  datatype SiblingInfo = SiblingInfo(current: int, total: int, hasPrev: bool, hasNext: bool)

  /** `getSiblingInfo`: the 1-based position of a node among its siblings, for the branch pager. */
  function GetSiblingInfo(logId: Id, logs: seq<Log>): (r: SiblingInfo)
    ensures !HasId(logs, logId) ==> r == SiblingInfo(1, 1, false, false)
    ensures 1 <= r.current <= r.total
    ensures r.hasPrev <==> r.current > 1
    ensures r.hasNext <==> r.current < r.total
    ensures HasId(logs, logId) ==>
      var s := Siblings(logs, Get(logs, logId).value.parentId);
      r.total == |s| && s[r.current - 1].id == logId
  {
    match Get(logs, logId)
    case None => SiblingInfo(1, 1, false, false)
    case Some(log) =>
      var s := Siblings(logs, log.parentId);
      var index := SiblingIndex(logs, log);
      assert 0 <= index < |s| && s[index].id == logId;
      SiblingInfo(index + 1, |s|, index > 0, index < |s| - 1)
  }

  datatype Direction = Prev | Next

  /**
   * `findNextSiblingId`: the id of the sibling just before or after `logId` in
   * timestamp order, or null for an unknown id or a root.  A result always names a
   * node with the same parent.
   */
  function FindNextSiblingId(logId: Id, direction: Direction, logs: seq<Log>): (r: Option<Id>)
    ensures r.Some? ==> HasId(logs, logId) && Present(Get(logs, logId).value.parentId)
    ensures r.Some? ==>
      exists n :: 0 <= n < |logs| && logs[n].id == r.value && logs[n].parentId == Get(logs, logId).value.parentId
  {
    match Get(logs, logId)
    case None => None
    case Some(log) =>
      if !Present(log.parentId) then None
      else
        var s := Siblings(logs, log.parentId);
        var currentIndex := SiblingIndex(logs, log);
        var newIndex := if direction == Prev then currentIndex - 1 else currentIndex + 1;
        if newIndex < 0 || newIndex >= |s| then None
        else
          assert s[newIndex] in logs;
          Some(s[newIndex].id)
  }

  /**
   * For a known non-root node, `findNextSiblingId` is null exactly at the matching end
   * of the sibling list, and otherwise names the sibling one step in `direction`.
   */
  lemma FindNextSiblingIdStep(logId: Id, direction: Direction, logs: seq<Log>)
    requires HasId(logs, logId) && Present(Get(logs, logId).value.parentId)
    ensures var log := Get(logs, logId).value;
      var s := Siblings(logs, log.parentId);
      var k := SiblingIndex(logs, log);
      var n := if direction == Prev then k - 1 else k + 1;
      && (FindNextSiblingId(logId, direction, logs).None? <==> n < 0 || n >= |s|)
      && (0 <= n < |s| ==> FindNextSiblingId(logId, direction, logs) == Some(s[n].id))
  {
  }

  /** A node that may become the parent's active child once `deletedLogId` is gone. */
  predicate IsReplacement(l: Log, parentId: Id, deletedLogId: Id) {
    l.parentId == Some(parentId) && l.id != deletedLogId
  }

  /**
   * `findNewActiveChildAfterDeletion`: the newest remaining child of `parentId`
   * other than `deletedLogId`, or null when there is none.
   */
  function FindNewActiveChildAfterDeletion(parentId: Id, deletedLogId: Id, logs: seq<Log>): (r: Option<Id>)
    ensures r.None? <==> forall l :: l in logs ==> !IsReplacement(l, parentId, deletedLogId)
    ensures r.Some? ==> r.value != deletedLogId
    ensures r.Some? ==>
      exists n ::
        && 0 <= n < |logs| && logs[n].id == r.value && IsReplacement(logs[n], parentId, deletedLogId)
        && (forall l :: l in logs && IsReplacement(l, parentId, deletedLogId) ==> Le(l.timestamp, logs[n].timestamp))
        && (forall j :: 0 <= j < n && IsReplacement(logs[j], parentId, deletedLogId) ==> Lt(logs[j].timestamp, logs[n].timestamp))
  {
    var isCandidate := (l: Log) => IsReplacement(l, parentId, deletedLogId);
    var c := Filter(logs, isCandidate);
    SortByMembers(c, Timestamp, true);
    if |c| == 0 then
      assert forall l :: l in logs ==> !IsReplacement(l, parentId, deletedLogId) by {
        forall l | l in logs ensures !IsReplacement(l, parentId, deletedLogId) {
          var i :| 0 <= i < |logs| && logs[i] == l;
        }
      }
      None
    else
      var sorted := SortBy(c, Timestamp, true);
      SortByHeadExtreme(c, Timestamp, true);
      var newest := sorted[0];
      assert newest in c;
      assert forall l :: l in logs && IsReplacement(l, parentId, deletedLogId) ==> Le(l.timestamp, newest.timestamp) by {
        forall l | l in logs && IsReplacement(l, parentId, deletedLogId) ensures Le(l.timestamp, newest.timestamp) {
          var i :| 0 <= i < |logs| && logs[i] == l;
          assert l in c;
          assert !Before(Timestamp, true, l, newest);
        }
      }
      assert exists n ::
        && 0 <= n < |logs| && logs[n] == newest && IsReplacement(logs[n], parentId, deletedLogId)
        && forall j :: 0 <= j < n && IsReplacement(logs[j], parentId, deletedLogId) ==> Lt(logs[j].timestamp, newest.timestamp)
      by {
        var n := SortFilterHeadFirst(logs, isCandidate, Timestamp, true);
        assert logs[n] == newest;
      }
      Some(newest.id)
  }
}
