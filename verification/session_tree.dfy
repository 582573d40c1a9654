/**
 * The in-place edits `ChatSession` (src/lib/state/chat.svelte.ts) makes to its node
 * map, as functions over the map's entries in insertion order: `set` of a node,
 * rewriting a parent's `activeChildId`, committing a new node as the active child
 * (`_saveNewBranchLog`), deleting a node and re-parenting its children (`deleteLog`),
 * and switching to an adjacent sibling (`switchBranch`).
 */
module SessionTree {
  import opened Types
  import opened Lists
  import opened LogTree

  /** `logs.set(l.id, l)`: an existing entry is replaced where it stands, a new key goes last. */
  function Put(logs: seq<Log>, l: Log): seq<Log> {
    var k := IndexOfId(logs, l.id);
    if k >= 0 then logs[k := l] else logs + [l]
  }

  /** The same ids at the same positions. */
  predicate SameIds(a: seq<Log>, b: seq<Log>) {
    |a| == |b| && forall i :: 0 <= i < |a| ==> a[i].id == b[i].id
  }

  lemma IndexOfSameIds(a: seq<Log>, b: seq<Log>, id: Id)
    requires SameIds(a, b)
    ensures IndexOfId(a, id) == IndexOfId(b, id)
  {
    var ka, kb := IndexOfId(a, id), IndexOfId(b, id);
    if ka >= 0 {
      assert b[ka].id == id;
    }
    if kb >= 0 {
      assert a[kb].id == id;
    }
  }

  lemma IndexOfAppend(a: seq<Log>, l: Log, id: Id)
    requires l.id != id
    ensures IndexOfId(a + [l], id) == IndexOfId(a, id)
  {
    var k, ka := IndexOfId(a + [l], id), IndexOfId(a, id);
    if ka >= 0 {
      assert (a + [l])[ka].id == id;
    }
    if k >= 0 {
      assert k < |a| && a[k] == (a + [l])[k];
    }
  }

  /**
   * After `set`, the key maps to the new node, every other key maps to what it did,
   * keys stay unique, and a new key is appended at the end.
   */
  lemma PutProperties(logs: seq<Log>, l: Log)
    requires UniqueIds(logs)
    ensures UniqueIds(Put(logs, l))
    ensures Get(Put(logs, l), l.id) == Some(l)
    ensures forall id :: id != l.id ==> Get(Put(logs, l), id) == Get(logs, id)
    ensures HasId(logs, l.id) ==> |Put(logs, l)| == |logs|
    ensures !HasId(logs, l.id) ==> Put(logs, l) == logs + [l]
  {
    var r := Put(logs, l);
    var k := IndexOfId(logs, l.id);
    if k >= 0 {
      assert SameIds(r, logs);
      forall id | id != l.id ensures Get(r, id) == Get(logs, id) {
        IndexOfSameIds(r, logs, id);
      }
      IndexOfSameIds(r, logs, l.id);
    } else {
      assert r[|logs|] == l;
      assert forall j :: 0 <= j < |logs| ==> r[j] == logs[j];
      forall id | id != l.id ensures Get(r, id) == Get(logs, id) {
        IndexOfAppend(logs, l, id);
        var j := IndexOfId(logs, id);
        if j >= 0 { assert r[j] == logs[j]; }
      }
    }
  }

  /** `parent.activeChildId = child` on the entry with key `parentId`, if there is one. */
  function SetActiveChild(logs: seq<Log>, parentId: Id, child: Option<Id>): seq<Log> {
    match Get(logs, parentId)
    case None => logs
    case Some(p) => Put(logs, p.(activeChildId := child))
  }

  /** `_saveNewBranchLog`: store the node, then make it its parent's active child. */
  function SaveNewBranch(logs: seq<Log>, parentId: Id, node: Log): seq<Log> {
    SetActiveChild(Put(logs, node), parentId, Some(node.id))
  }

  lemma PutUnique(logs: seq<Log>, l: Log)
    requires UniqueIds(logs)
    ensures UniqueIds(Put(logs, l))
  {
    PutProperties(logs, l);
  }

  lemma SetActiveChildUnique(logs: seq<Log>, parentId: Id, child: Option<Id>)
    requires UniqueIds(logs)
    ensures UniqueIds(SetActiveChild(logs, parentId, child))
  {
    if Get(logs, parentId).Some? {
      PutUnique(logs, Get(logs, parentId).value.(activeChildId := child));
    }
  }

  lemma SaveNewBranchUnique(logs: seq<Log>, parentId: Id, node: Log)
    requires UniqueIds(logs)
    ensures UniqueIds(SaveNewBranch(logs, parentId, node))
  {
    PutUnique(logs, node);
    SetActiveChildUnique(Put(logs, node), parentId, Some(node.id));
  }

  /**
   * Committing a node stores it, points the parent (when it exists) at it, and leaves
   * every other entry as it was.
   */
  lemma SaveNewBranchProperties(logs: seq<Log>, parentId: Id, node: Log)
    requires UniqueIds(logs) && node.id != parentId
    ensures var r := SaveNewBranch(logs, parentId, node);
      && UniqueIds(r)
      && Get(r, node.id) == Some(node)
      && (HasId(logs, parentId) ==> Get(r, parentId) == Some(Get(logs, parentId).value.(activeChildId := Some(node.id))))
      && (!HasId(logs, parentId) ==> !HasId(r, parentId))
      && forall id :: id != node.id && id != parentId ==> Get(r, id) == Get(logs, id)
  {
    var stored := Put(logs, node);
    PutProperties(logs, node);
    match Get(stored, parentId)
    case None =>
    case Some(p) => PutProperties(stored, p.(activeChildId := Some(node.id)));
  }

  /** The path with the updated parent in place of the old one. */
  function Updated(path: seq<Log>, p: Log): (r: seq<Log>)
    ensures |r| == |path|
  {
    seq(|path|, i requires 0 <= i < |path| => if path[i].id == p.id then p else path[i])
  }

  lemma UpdatedCons(c: Log, rest: seq<Log>, p: Log)
    ensures Updated([c] + rest, p) == [if c.id == p.id then p else c] + Updated(rest, p)
  {
    var u := [if c.id == p.id then p else c] + Updated(rest, p);
    forall i | 0 <= i < |u| ensures Updated([c] + rest, p)[i] == u[i] {
      if i > 0 { assert ([c] + rest)[i] == rest[i - 1]; }
    }
  }

  lemma SameNode(logs: seq<Log>, a: Log, b: Log)
    requires UniqueIds(logs) && a in logs && b in logs && a.id == b.id
    ensures a == b
  {
    var i :| 0 <= i < |logs| && logs[i] == a;
    var j :| 0 <= j < |logs| && logs[j] == b;
  }

  /** The walk in the committed map follows the old walk and then steps onto the new node. */
  lemma {:induction false} WalkCommit(logs: seq<Log>, r: seq<Log>, parent: Log, node: Log, x: Log, d: nat)
    requires UniqueIds(logs) && parent in logs && Stopped(logs, parent)
    requires !HasId(logs, node.id) && node.id != "" && !Present(node.activeChildId)
    requires Get(r, node.id) == Some(node)
    requires Get(r, parent.id) == Some(parent.(activeChildId := Some(node.id)))
    requires forall id :: id != node.id && id != parent.id ==> Get(r, id) == Get(logs, id)
    requires x in logs && d + |Walk(logs, x, d)| < MaxDepth
    requires Last([x] + Walk(logs, x, d)) == parent
    ensures var p' := parent.(activeChildId := Some(node.id));
      Walk(r, if x.id == parent.id then p' else x, d) == Updated(Walk(logs, x, d), p') + [node]
    decreases MaxDepth - d
  {
    var p' := parent.(activeChildId := Some(node.id));
    var w := Walk(logs, x, d);
    if x.id == parent.id {
      WalkCommitAtParent(logs, r, parent, node, x, d);
    } else {
      if w == [] {
        assert false;
      }
      var c := Get(logs, x.activeChildId.value).value;
      WalkStep(logs, x, d);
      assert c.id != node.id;
      assert Last([c] + Walk(logs, c, d + 1)) == Last([x] + w);
      WalkCommit(logs, r, parent, node, c, d + 1);
      var c' := if c.id == parent.id then p' else c;
      assert Get(r, x.activeChildId.value) == Some(c');
      WalkStep(r, x, d);
      UpdatedCons(c, Walk(logs, c, d + 1), p');
    }
  }

  /** The base case of `WalkCommit`: the walk reaches the parent, which now steps onto the new node. */
  lemma WalkCommitAtParent(logs: seq<Log>, r: seq<Log>, parent: Log, node: Log, x: Log, d: nat)
    requires UniqueIds(logs) && parent in logs && Stopped(logs, parent)
    requires Get(r, node.id) == Some(node) && node.id != "" && !Present(node.activeChildId)
    requires Get(r, parent.id) == Some(parent.(activeChildId := Some(node.id)))
    requires x in logs && x.id == parent.id && d + |Walk(logs, x, d)| < MaxDepth
    ensures var p' := parent.(activeChildId := Some(node.id));
      Walk(r, p', d) == Updated(Walk(logs, x, d), p') + [node]
  {
    var p' := parent.(activeChildId := Some(node.id));
    SameNode(logs, x, parent);
    WalkEnd(logs, x, d);
    WalkEnd(r, node, d + 1);
    WalkStep(r, p', d);
  }

  lemma FirstRootKept(logs: seq<Log>, r: seq<Log>, k: nat, p: Log)
    requires k < |logs| && |logs| <= |r| && r[..|logs|] == logs[k := p] && IsRoot(p) == IsRoot(logs[k])
    requires FindIndex(logs, IsRoot) >= 0
    ensures FindIndex(r, IsRoot) == FindIndex(logs, IsRoot)
  {
    var k0 := FindIndex(logs, IsRoot);
    assert forall j :: 0 <= j < |logs| ==> IsRoot(r[j]) == IsRoot(logs[j]) by {
      forall j | 0 <= j < |logs| ensures IsRoot(r[j]) == IsRoot(logs[j]) {
        assert r[j] == r[..|logs|][j];
      }
    }
  }

  /**
   * Committing a fresh node under the last node of the active path (when the map has a
   * root and the path is shorter than the hop guard) extends the path by exactly that
   * node; the path is otherwise the old one, with the parent now pointing at the node.
   */
  lemma CommitExtendsPath(logs: seq<Log>, node: Log)
    requires UniqueIds(logs) && FindIndex(logs, IsRoot) >= 0 && |ActivePath(logs)| <= MaxDepth
    requires !HasId(logs, node.id) && node.id != "" && !Present(node.activeChildId)
    ensures |ActivePath(logs)| > 0
    ensures var parent := Last(ActivePath(logs));
      ActivePath(SaveNewBranch(logs, parent.id, node))
        == Updated(ActivePath(logs), parent.(activeChildId := Some(node.id))) + [node]
  {
    var path := ActivePath(logs);
    assert |path| > 0 && Last(path) in logs && Stopped(logs, Last(path)) by {
      ActivePathProperties(logs);
      assert Last(path) in path;
    }
    CommitUnderLast(logs, node, Last(path));
  }

  /** `CommitExtendsPath` once the parent is known to be the last node of the path, and stopped. */
  lemma CommitUnderLast(logs: seq<Log>, node: Log, parent: Log)
    requires UniqueIds(logs) && FindIndex(logs, IsRoot) >= 0 && |ActivePath(logs)| <= MaxDepth
    requires !HasId(logs, node.id) && node.id != "" && !Present(node.activeChildId)
    requires |ActivePath(logs)| > 0 && parent == Last(ActivePath(logs)) && parent in logs && Stopped(logs, parent)
    ensures ActivePath(SaveNewBranch(logs, parent.id, node))
      == Updated(ActivePath(logs), parent.(activeChildId := Some(node.id))) + [node]
  {
    var r := SaveNewBranch(logs, parent.id, node);
    SaveNewBranchProperties(logs, parent.id, node);
    CommitKeepsRoot(logs, parent, node);
    ActivePathStart(logs);
    ActivePathStart(r);
    PathFromRootAfterCommit(logs, r, parent, node, FindRoot(logs).value);
  }

  /** The path from the root in the committed map is the old one, updated, with the new node appended. */
  lemma PathFromRootAfterCommit(logs: seq<Log>, r: seq<Log>, parent: Log, node: Log, root: Log)
    requires UniqueIds(logs) && parent in logs && Stopped(logs, parent)
    requires !HasId(logs, node.id) && node.id != "" && !Present(node.activeChildId)
    requires Get(r, node.id) == Some(node)
    requires Get(r, parent.id) == Some(parent.(activeChildId := Some(node.id)))
    requires forall id :: id != node.id && id != parent.id ==> Get(r, id) == Get(logs, id)
    requires root in logs && |Walk(logs, root, 0)| < MaxDepth
    requires Last([root] + Walk(logs, root, 0)) == parent
    ensures var p' := parent.(activeChildId := Some(node.id));
      var root' := if root.id == parent.id then p' else root;
      [root'] + Walk(r, root', 0) == Updated([root] + Walk(logs, root, 0), p') + [node]
  {
    var p' := parent.(activeChildId := Some(node.id));
    var root' := if root.id == parent.id then p' else root;
    var w := Walk(logs, root, 0);
    WalkCommit(logs, r, parent, node, root, 0);
    UpdatedCons(root, w, p');
    assert [root'] + (Updated(w, p') + [node]) == ([root'] + Updated(w, p')) + [node];
  }

  /** Committing under an existing node keeps the first root in map order where it was. */
  lemma CommitKeepsRoot(logs: seq<Log>, parent: Log, node: Log)
    requires UniqueIds(logs) && FindIndex(logs, IsRoot) >= 0 && parent in logs && !HasId(logs, node.id)
    ensures var root := FindRoot(logs).value;
      var p' := parent.(activeChildId := Some(node.id));
      FindRoot(SaveNewBranch(logs, parent.id, node)) == Some(if root.id == parent.id then p' else root)
  {
    var p' := parent.(activeChildId := Some(node.id));
    var r := SaveNewBranch(logs, parent.id, node);
    PutProperties(logs, node);
    var kp := IndexOfId(logs, parent.id);
    IndexOfAppend(logs, node, parent.id);
    SameNode(logs, logs[kp], parent);
    assert r == (logs + [node])[kp := p'];
    assert r[..|logs|] == logs[kp := p'];
    FirstRootKept(logs, r, kp, p');
    var k0 := FindIndex(logs, IsRoot);
    assert FindRoot(logs) == Some(logs[k0]);
    assert r[k0] == r[..|logs|][k0];
    if logs[k0].id == parent.id {
      SameNode(logs, logs[k0], parent);
    }
  }

  /** `deleteLog`'s loop: every child of `id` is moved under `newParent`. */
  function Reparented(logs: seq<Log>, id: Id, newParent: Option<Id>): (r: seq<Log>)
    ensures SameIds(r, logs)
  {
    seq(|logs|, i requires 0 <= i < |logs| => if logs[i].parentId == Some(id) then logs[i].(parentId := newParent) else logs[i])
  }

  /** `children.some(c => c.id === childId)`: `childId` names a child of `id`. */
  predicate IsChild(logs: seq<Log>, id: Id, childId: Id) {
    exists i :: 0 <= i < |logs| && logs[i].parentId == Some(id) && logs[i].id == childId
  }

  /**
   * The parent's new active child: the deleted node's own active child when that is
   * one of its children, otherwise the newest remaining child of the parent in the map
   * whose children have already been moved up.
   */
  function NextActiveAfterDelete(logs: seq<Log>, target: Log, parentId: Id): Option<Id> {
    if Present(target.activeChildId) && IsChild(logs, target.id, target.activeChildId.value) then target.activeChildId
    else FindNewActiveChildAfterDeletion(parentId, target.id, Reparented(logs, target.id, target.parentId))
  }

  /** `this._logs.delete(id)`. */
  function Remove(logs: seq<Log>, id: Id): seq<Log> {
    Filter(logs, (l: Log) => l.id != id)
  }

  /** `deleteLog` on the node map; an unknown id changes nothing. */
  function DeleteNode(logs: seq<Log>, id: Id): seq<Log> {
    match Get(logs, id)
    case None => logs
    case Some(target) =>
      var moved := Reparented(logs, id, target.parentId);
      var relinked :=
        if Present(target.parentId) && HasId(logs, target.parentId.value)
        then SetActiveChild(moved, target.parentId.value, NextActiveAfterDelete(logs, target, target.parentId.value))
        else moved;
      Remove(relinked, id)
  }

  lemma {:induction false} RemoveProperties(logs: seq<Log>, id: Id)
    requires UniqueIds(logs)
    ensures UniqueIds(Remove(logs, id)) && !HasId(Remove(logs, id), id)
    decreases |logs|
  {
    if |logs| > 0 {
      RemoveProperties(logs[1..], id);
      var rest := Remove(logs[1..], id);
      assert forall l :: l in rest ==> l in logs[1..];
      if logs[0].id != id {
        assert Remove(logs, id) == [logs[0]] + rest;
      }
    }
  }

  /** Removing a key leaves every other key's entry as it was. */
  lemma {:induction false} RemoveGet(logs: seq<Log>, id: Id, other: Id)
    requires other != id
    ensures Get(Remove(logs, id), other) == Get(logs, other)
    decreases |logs|
  {
    if |logs| > 0 {
      RemoveGet(logs[1..], id, other);
      var k := IndexOfId(logs, other);
      if k > 0 { assert logs[1..][k - 1] == logs[k]; }
      var k' := IndexOfId(logs[1..], other);
      if k' >= 0 { assert logs[k' + 1] == logs[1..][k']; }
      if logs[0].id != id {
        assert Remove(logs, id) == [logs[0]] + Remove(logs[1..], id);
      }
    }
  }

  lemma ReparentedGet(logs: seq<Log>, id: Id, newParent: Option<Id>, other: Id)
    requires HasId(logs, other)
    ensures var l := Get(logs, other).value;
      Get(Reparented(logs, id, newParent), other)
        == Some(if l.parentId == Some(id) then l.(parentId := newParent) else l)
  {
    IndexOfSameIds(Reparented(logs, id, newParent), logs, other);
  }

  /**
   * Deleting a known node removes exactly it; its children now hang from its parent;
   * the parent (when it exists and is another node) points at `NextActiveAfterDelete`,
   * which is never the deleted id, and is otherwise as re-parenting left it; every other
   * node is unchanged.
   */
  lemma DeleteNodeProperties(logs: seq<Log>, id: Id)
    requires UniqueIds(logs) && HasId(logs, id)
    ensures var target := Get(logs, id).value; var r := DeleteNode(logs, id);
      && UniqueIds(r) && !HasId(r, id)
      && (forall l :: l in logs && l.id != id ==> HasId(r, l.id))
      && (forall l :: l in logs && l.id != id && l.parentId == Some(id) && Some(l.id) != target.parentId ==>
            Get(r, l.id) == Some(l.(parentId := target.parentId)))
      && (forall l :: l in logs && l.id != id && l.parentId != Some(id) && Some(l.id) != target.parentId ==>
            Get(r, l.id) == Some(l))
      && (Present(target.parentId) && target.parentId.value != id && HasId(logs, target.parentId.value) ==>
            var pid := target.parentId.value;
            && NextActiveAfterDelete(logs, target, pid) != Some(id)
            && var p := Get(logs, pid).value;
               var moved := if p.parentId == Some(id) then p.(parentId := target.parentId) else p;
               Get(r, pid) == Some(moved.(activeChildId := NextActiveAfterDelete(logs, target, pid))))
  {
    var target := Get(logs, id).value;
    var moved := Reparented(logs, id, target.parentId);
    assert UniqueIds(moved) by { assert SameIds(moved, logs); }
    var relinked :=
      if Present(target.parentId) && HasId(logs, target.parentId.value)
      then SetActiveChild(moved, target.parentId.value, NextActiveAfterDelete(logs, target, target.parentId.value))
      else moved;
    assert UniqueIds(relinked) && forall other :: Some(other) != target.parentId ==> Get(relinked, other) == Get(moved, other) by {
      if Present(target.parentId) && HasId(logs, target.parentId.value) {
        var pid := target.parentId.value;
        ReparentedGet(logs, id, target.parentId, pid);
        PutProperties(moved, Get(moved, pid).value.(activeChildId := NextActiveAfterDelete(logs, target, pid)));
      }
    }
    RemoveProperties(relinked, id);
    forall other | other != id ensures Get(Remove(relinked, id), other) == Get(relinked, other) {
      RemoveGet(relinked, id, other);
    }
    forall l | l in logs && l.id != id
      ensures HasId(DeleteNode(logs, id), l.id)
      ensures Some(l.id) != target.parentId ==>
        Get(DeleteNode(logs, id), l.id) == Some(if l.parentId == Some(id) then l.(parentId := target.parentId) else l)
    {
      var i :| 0 <= i < |logs| && logs[i] == l;
      GetUnique(logs, i);
      ReparentedGet(logs, id, target.parentId, l.id);
      if Present(target.parentId) && HasId(logs, target.parentId.value) && l.id == target.parentId.value {
        ReparentedGet(logs, id, target.parentId, l.id);
        PutProperties(moved, Get(moved, l.id).value.(activeChildId := NextActiveAfterDelete(logs, target, l.id)));
      }
    }
    if Present(target.parentId) && target.parentId.value != id && HasId(logs, target.parentId.value) {
      var pid := target.parentId.value;
      var next := NextActiveAfterDelete(logs, target, pid);
      ReparentedGet(logs, id, target.parentId, pid);
      PutProperties(moved, Get(moved, pid).value.(activeChildId := next));
      if Present(target.activeChildId) && IsChild(logs, id, target.activeChildId.value) {
        var j :| 0 <= j < |logs| && logs[j].parentId == Some(id) && logs[j].id == target.activeChildId.value;
        if logs[j].id == id {
          GetUnique(logs, j);
        }
      }
    }
  }

  lemma DeleteNodeUnique(logs: seq<Log>, id: Id)
    requires UniqueIds(logs) && HasId(logs, id)
    ensures UniqueIds(DeleteNode(logs, id))
  {
    DeleteNodeProperties(logs, id);
  }

  /** `switchBranch` on the node map: the parent's active child becomes the adjacent sibling. */
  function SwitchBranch(logs: seq<Log>, logId: Id, direction: Direction): seq<Log> {
    match FindNextSiblingId(logId, direction, logs)
    case None => logs
    case Some(target) => SetActiveChild(logs, Get(logs, logId).value.parentId.value, Some(target))
  }

  /**
   * At either end of the sibling list, for a root and for an unknown id nothing changes;
   * otherwise the parent, when it exists, points at the sibling one step in `direction`
   * (a node with the same parent) and no other node changes.
   */
  lemma SwitchBranchProperties(logs: seq<Log>, logId: Id, direction: Direction)
    requires UniqueIds(logs)
    ensures FindNextSiblingId(logId, direction, logs).None? ==> SwitchBranch(logs, logId, direction) == logs
    ensures FindNextSiblingId(logId, direction, logs).Some? ==>
      var log := Get(logs, logId).value;
      var pid := log.parentId.value;
      var s := Siblings(logs, log.parentId);
      var k := SiblingIndex(logs, log);
      var n := if direction == Prev then k - 1 else k + 1;
      var r := SwitchBranch(logs, logId, direction);
      && 0 <= n < |s| && s[n].parentId == log.parentId
      && FindNextSiblingId(logId, direction, logs) == Some(s[n].id)
      && UniqueIds(r)
      && (HasId(logs, pid) ==> Get(r, pid) == Some(Get(logs, pid).value.(activeChildId := Some(s[n].id))))
      && (forall id :: id != pid ==> Get(r, id) == Get(logs, id))
  {
    var t := FindNextSiblingId(logId, direction, logs);
    if t.Some? {
      FindNextSiblingIdStep(logId, direction, logs);
      var pid := Get(logs, logId).value.parentId.value;
      if HasId(logs, pid) {
        PutProperties(logs, Get(logs, pid).value.(activeChildId := t));
      }
    }
  }

  /** `logs.forEach(log => this._logs.set(log.id, log))` into an empty map. */
  function PutAll(logs: seq<Log>, stored: seq<Log>): seq<Log>
    decreases |stored|
  {
    if |stored| == 0 then logs else PutAll(Put(logs, stored[0]), stored[1..])
  }

  /** Loading one more stored log is one more `Put`: the loop of `load` builds `PutAll` log by log. */
  lemma {:induction false} PutAllSnoc(logs: seq<Log>, stored: seq<Log>, l: Log)
    ensures PutAll(logs, stored + [l]) == Put(PutAll(logs, stored), l)
    decreases |stored|
  {
    assert (stored + [l])[0] == if |stored| > 0 then stored[0] else l;
    if |stored| > 0 {
      assert (stored + [l])[1..] == stored[1..] + [l];
      PutAllSnoc(Put(logs, stored[0]), stored[1..], l);
    } else {
      assert (stored + [l])[1..] == [];
    }
  }

  lemma {:induction false} PutAllUnique(logs: seq<Log>, stored: seq<Log>)
    requires UniqueIds(logs)
    ensures UniqueIds(PutAll(logs, stored))
    decreases |stored|
  {
    if |stored| > 0 {
      PutProperties(logs, stored[0]);
      PutAllUnique(Put(logs, stored[0]), stored[1..]);
    }
  }

  /** After loading, a key is present exactly when it was already or some stored log carries it. */
  lemma {:induction false} PutAllKeys(logs: seq<Log>, stored: seq<Log>, id: Id)
    requires UniqueIds(logs)
    ensures HasId(PutAll(logs, stored), id) <==> HasId(logs, id) || HasId(stored, id)
    decreases |stored|
  {
    if |stored| > 0 {
      var next := Put(logs, stored[0]);
      PutProperties(logs, stored[0]);
      PutAllKeys(next, stored[1..], id);
      assert HasId(next, id) <==> HasId(logs, id) || stored[0].id == id by {
        if id != stored[0].id { assert Get(next, id) == Get(logs, id); }
      }
      assert HasId(stored, id) <==> stored[0].id == id || HasId(stored[1..], id) by {
        if HasId(stored, id) && stored[0].id != id {
          var i :| 0 <= i < |stored| && stored[i].id == id;
          assert stored[1..][i - 1].id == id;
        }
        if HasId(stored[1..], id) {
          var i :| 0 <= i < |stored[1..]| && stored[1..][i].id == id;
          assert stored[i + 1].id == id;
        }
      }
    }
  }

  /** Loading maps each key to the last stored log that carries it. */
  lemma {:induction false} PutAllLast(logs: seq<Log>, stored: seq<Log>, i: nat)
    requires UniqueIds(logs) && i < |stored|
    requires forall j :: i < j < |stored| ==> stored[j].id != stored[i].id
    ensures Get(PutAll(logs, stored), stored[i].id) == Some(stored[i])
    decreases |stored|
  {
    var next := Put(logs, stored[0]);
    PutProperties(logs, stored[0]);
    if i > 0 {
      assert stored[1..][i - 1] == stored[i];
      PutAllLast(next, stored[1..], i - 1);
    } else {
      PutAllKeeps(next, stored[1..], stored[0].id);
    }
  }

  /** A key that no later stored log carries keeps its entry. */
  lemma {:induction false} PutAllKeeps(logs: seq<Log>, stored: seq<Log>, id: Id)
    requires UniqueIds(logs)
    requires forall j :: 0 <= j < |stored| ==> stored[j].id != id
    ensures Get(PutAll(logs, stored), id) == Get(logs, id)
    decreases |stored|
  {
    if |stored| > 0 {
      PutProperties(logs, stored[0]);
      assert forall j :: 0 <= j < |stored[1..]| ==> stored[1..][j] == stored[j + 1];
      PutAllKeeps(Put(logs, stored[0]), stored[1..], id);
    }
  }
}
