/**
 * The session store (`src/lib/db/repository.ts`) over in-memory tables.
 *
 * The two IndexedDB tables become maps keyed by the record id: `sessions` holds the
 * session records, `logs` the message nodes of every session (each carries its
 * `sessionId`).  A Dexie `update` of a key that is not there changes nothing; `put`
 * stores under the record's own id.  The clock and `uuidv4` are inputs: `now` is the
 * ISO-8601 time of the call, and a duplicated session draws its ids from `newIds`.
 */
module Repository {
  import opened Types
  import opened Order

  /** A session record: id, title and the creation and last-update times. */
  datatype SessionMeta = SessionMeta(id: Id, title: string, createdAt: string, lastUpdatedAt: string)

  const CopySuffix: string := " のコピー"
  const SessionNotFound: string := "Session not found"

  /* ---------------- session records ---------------- */

  /** `createOrUpdateSession`: a new record takes the title; an existing one only gets a new update time. */
  function CreatedOrTouched(sessions: map<Id, SessionMeta>, id: Id, title: string, now: string): map<Id, SessionMeta> {
    if id !in sessions then sessions[id := SessionMeta(id, title, now, now)]
    else sessions[id := sessions[id].(lastUpdatedAt := now)]
  }

  /** `updateSessionTitle`: the title is set, the record created when it is missing. */
  function Retitled(sessions: map<Id, SessionMeta>, id: Id, title: string, now: string): map<Id, SessionMeta> {
    if id in sessions then sessions[id := sessions[id].(title := title, lastUpdatedAt := now)]
    else sessions[id := SessionMeta(id, title, now, now)]
  }

  /** `touchSession`: a new update time for a record that exists. */
  function Touched(sessions: map<Id, SessionMeta>, id: Id, now: string): map<Id, SessionMeta> {
    if id in sessions then sessions[id := sessions[id].(lastUpdatedAt := now)] else sessions
  }

  /**
   * Sending a message keeps the title a session already has and names a new session;
   * every other record is left alone and the session is updated at `now`.
   */
  lemma CreateOrUpdateTitles(sessions: map<Id, SessionMeta>, id: Id, title: string, now: string)
    ensures var r := CreatedOrTouched(sessions, id, title, now);
      && id in r && r[id].lastUpdatedAt == now
      && r[id].title == (if id in sessions then sessions[id].title else title)
      && (id in sessions ==> r[id].createdAt == sessions[id].createdAt)
      && (forall k :: k != id ==> (k in r <==> k in sessions) && (k in r ==> r[k] == sessions[k]))
  {
  }

  /**
   * Renaming always sets the title, creating the record when there is none; a later
   * send (`createOrUpdateSession`) then keeps that title instead of naming the session
   * after the message.
   */
  lemma RenameSurvivesSend(sessions: map<Id, SessionMeta>, id: Id, title: string, now: string,
                           sentTitle: string, later: string)
    ensures var renamed := Retitled(sessions, id, title, now);
      && id in renamed && renamed[id].title == title
      && (forall k :: k != id ==> (k in renamed <==> k in sessions) && (k in renamed ==> renamed[k] == sessions[k]))
      && CreatedOrTouched(renamed, id, sentTitle, later)[id].title == title
  {
  }

  /* ---------------- log records ---------------- */

  /** A Dexie `update` of one node: applied when the node exists, nothing otherwise. */
  function Updated(logs: map<Id, Log>, id: Id, f: Log -> Log): map<Id, Log> {
    if id in logs then logs[id := f(logs[id])] else logs
  }

  function SetText(text: string): Log -> Log {
    (l: Log) => l.(text := text)
  }

  function SetParent(parentId: Option<Id>): Log -> Log {
    (l: Log) => l.(parentId := parentId)
  }

  function SetActiveChild(activeChildId: Option<Id>): Log -> Log {
    (l: Log) => l.(activeChildId := activeChildId)
  }

  /**
   * The field updates change one field of one node: the text, the parent or the active
   * child of the node with that id, when it exists; every other node is untouched.
   */
  lemma FieldUpdatesAreLocal(logs: map<Id, Log>, id: Id, text: string, ref: Option<Id>)
    ensures var t, p, a := Updated(logs, id, SetText(text)), Updated(logs, id, SetParent(ref)), Updated(logs, id, SetActiveChild(ref));
      && t.Keys == p.Keys == a.Keys == logs.Keys
      && (id in logs ==> t[id] == logs[id].(text := text) && p[id] == logs[id].(parentId := ref)
                         && a[id] == logs[id].(activeChildId := ref))
      && (forall k :: k in logs && k != id ==> t[k] == p[k] == a[k] == logs[k])
  {
  }

  /** The ids of the nodes that belong to session `sessionId`. */
  function SessionLogIds(logs: map<Id, Log>, sessionId: Id): set<Id> {
    set k | k in logs && logs[k].sessionId == sessionId
  }

  /** `deleteSession`: the record and every node of the session go, in one transaction. */
  function WithoutSessionLogs(logs: map<Id, Log>, sessionId: Id): map<Id, Log> {
    map k | k in logs && logs[k].sessionId != sessionId :: logs[k]
  }

  /** Deleting a session leaves none of its nodes and every node of other sessions. */
  lemma DeleteSessionRemovesItsLogs(logs: map<Id, Log>, sessionId: Id)
    ensures var r := WithoutSessionLogs(logs, sessionId);
      && SessionLogIds(r, sessionId) == {}
      && r.Keys == logs.Keys - SessionLogIds(logs, sessionId)
      && forall k :: k in r ==> r[k] == logs[k]
  {
  }

  /* ---------------- duplicating a session ---------------- */

  /** A reference through the id map: kept when it names a node of the copied session, `null` otherwise. */
  function Remap(ref: Option<Id>, idMap: map<Id, Id>): Option<Id> {
    if Present(ref) && ref.value in idMap then Some(idMap[ref.value]) else None
  }

  /** The copy of node `k`: new id, new session, links through the id map, the rest as it was. */
  function CopyLog(k: Id, l: Log, idMap: map<Id, Id>, newSessionId: Id): Log
    requires k in idMap
  {
    l.(id := idMap[k], sessionId := newSessionId,
       parentId := Remap(l.parentId, idMap), activeChildId := Remap(l.activeChildId, idMap))
  }

  predicate Injective(idMap: map<Id, Id>) {
    forall a, b :: a in idMap && b in idMap && a != b ==> idMap[a] != idMap[b]
  }

  /** The id map `duplicateSession` builds: one fresh id for each node of the source session. */
  predicate FreshIdMap(idMap: map<Id, Id>, logs: map<Id, Log>, sourceId: Id) {
    && idMap.Keys == SessionLogIds(logs, sourceId)
    && Injective(idMap)
    && forall k :: k in idMap ==> idMap[k] !in logs
  }

  /** The copied nodes, keyed by their new ids. */
  function Copies(logs: map<Id, Log>, idMap: map<Id, Id>, newSessionId: Id): map<Id, Log>
    requires idMap.Keys <= logs.Keys && Injective(idMap)
  {
    map k | k in idMap :: idMap[k] := CopyLog(k, logs[k], idMap, newSessionId)
  }

  /**
   * The copy of a session is the same tree under new ids: one new node per source node
   * (the id map is one-to-one), each in the new session, with its parent and active
   * child the copies of the source's, references that leave the session dropped to
   * `null`, and the text, speaker, timestamp and files unchanged.
   */
  lemma CopiesKeepTree(logs: map<Id, Log>, idMap: map<Id, Id>, newSessionId: Id, sourceId: Id)
    requires FreshIdMap(idMap, logs, sourceId)
    ensures var c := Copies(logs, idMap, newSessionId);
      && c.Keys == idMap.Values
      && c.Keys !! logs.Keys
      && forall k :: k in idMap ==>
           var l, n := logs[k], c[idMap[k]];
           && n.id == idMap[k] && n.sessionId == newSessionId
           && n.speaker == l.speaker && n.text == l.text && n.timestamp == l.timestamp
           && n.thoughtProcess == l.thoughtProcess && n.attachments == l.attachments
           && (Present(l.parentId) && l.parentId.value in idMap <==> n.parentId.Some?)
           && (n.parentId.Some? ==> n.parentId == Some(idMap[l.parentId.value]))
           && (Present(l.activeChildId) && l.activeChildId.value in idMap <==> n.activeChildId.Some?)
           && (n.activeChildId.Some? ==> n.activeChildId == Some(idMap[l.activeChildId.value]))
  {
    var c := Copies(logs, idMap, newSessionId);
    forall v | v in idMap.Values ensures v in c {
      var k :| k in idMap && idMap[k] == v;
    }
  }

  /** A session's nodes and a node of it whose parent is in the session keep that link in the copy. */
  lemma CopyKeepsParentLink(logs: map<Id, Log>, idMap: map<Id, Id>, newSessionId: Id, sourceId: Id, child: Id, parent: Id)
    requires FreshIdMap(idMap, logs, sourceId)
    requires child in logs && parent in logs && logs[child].sessionId == sourceId && logs[parent].sessionId == sourceId
    requires logs[child].parentId == Some(parent) && parent != ""
    ensures var c := Copies(logs, idMap, newSessionId);
      idMap[child] in c && idMap[parent] in c && c[idMap[child]].parentId == Some(c[idMap[parent]].id)
  {
    assert child in SessionLogIds(logs, sourceId) && parent in SessionLogIds(logs, sourceId);
  }

  /** The session is duplicated: the new record is titled with the suffix, the source is not touched. */
  function DuplicateRecord(source: SessionMeta, newSessionId: Id, now: string): (r: SessionMeta)
    ensures r.id == newSessionId && r.title == source.title + CopySuffix && r.createdAt == r.lastUpdatedAt == now
  {
    SessionMeta(newSessionId, source.title + CopySuffix, now, now)
  }

  /* ---------------- the latest session ---------------- */

  /**
   * Session `a` comes after session `b` in `orderBy('lastUpdatedAt')`: a later update
   * time, or the same time and a greater id (the store orders equal index values by key).
   */
  predicate After(sessions: map<Id, SessionMeta>, a: Id, b: Id)
    requires a in sessions && b in sessions
  {
    Lt(sessions[b].lastUpdatedAt, sessions[a].lastUpdatedAt)
    || (sessions[a].lastUpdatedAt == sessions[b].lastUpdatedAt && Lt(b, a))
  }

  lemma AfterTransitive(sessions: map<Id, SessionMeta>, a: Id, b: Id, c: Id)
    requires a in sessions && b in sessions && c in sessions
    requires !After(sessions, b, a) && !After(sessions, c, b)
    ensures !After(sessions, c, a)
  {
    var ta, tb, tc := sessions[a].lastUpdatedAt, sessions[b].lastUpdatedAt, sessions[c].lastUpdatedAt;
    LtTotal(ta, tb);
    LtTotal(tb, tc);
    LtTotal(a, b);
    LtTotal(b, c);
    if Lt(ta, tc) {
      if Lt(tb, tc) {
        LtTransitive(ta, tb, tc);
      }
      LtAsymmetric(ta, tc);
      if tb == tc { }
      LtTransitive(tb, ta, tc);
    } else if ta == tc && Lt(a, c) {
      LtTotal(ta, tb);
      if Lt(ta, tb) {
        LtAsymmetric(tb, tc);
      } else if ta == tb {
        LtTransitive(b, a, c);
        LtAsymmetric(b, c);
      } else {
        LtAsymmetric(ta, tb);
      }
    }
  }

  lemma AfterAsymmetric(sessions: map<Id, SessionMeta>, a: Id, b: Id)
    requires a in sessions && b in sessions
    ensures After(sessions, a, b) ==> !After(sessions, b, a)
    ensures !After(sessions, a, a)
  {
    LtAsymmetric(sessions[a].lastUpdatedAt, sessions[b].lastUpdatedAt);
    LtAsymmetric(a, b);
    LtIrreflexive(sessions[a].lastUpdatedAt);
    LtIrreflexive(a);
  }

  lemma AfterTotal(sessions: map<Id, SessionMeta>, a: Id, b: Id)
    requires a in sessions && b in sessions && a != b
    ensures !After(sessions, a, b) ==> After(sessions, b, a)
  {
    LtTotal(sessions[a].lastUpdatedAt, sessions[b].lastUpdatedAt);
    LtTotal(a, b);
  }

  class ChatRepository {
    var sessions: map<Id, SessionMeta>
    var logs: map<Id, Log>

    /** An empty store. */
    constructor()
      ensures sessions == map[] && logs == map[]
    {
      sessions := map[];
      logs := map[];
    }

    /** The keys of the stored nodes of one session. */
    ghost function SessionKeys(sessionId: Id): set<Id>
      reads this
    {
      set k | k in logs && logs[k].sessionId == sessionId
    }

    /** The stored nodes of one session, one entry per stored node, in no particular order. */
    method CollectSession(sessionId: Id) returns (found: seq<Log>)
      ensures forall l :: l in found <==> l in logs.Values && l.sessionId == sessionId
      ensures |found| == |SessionKeys(sessionId)|
    {
      found := [];
      var rest := logs.Keys;
      ghost var taken: set<Id> := {};
      while rest != {}
        invariant rest <= logs.Keys
        invariant taken == SessionKeys(sessionId) - rest
        invariant forall l :: l in found <==> exists k :: k in taken && logs[k] == l
        invariant |found| == |taken|
        decreases rest
      {
        var k :| k in rest;
        if logs[k].sessionId == sessionId {
          found := found + [logs[k]];
          assert k !in taken;
          taken := taken + {k};
        }
        rest := rest - {k};
      }
      forall l | l in logs.Values && l.sessionId == sessionId
        ensures l in found
      {
        var k :| k in logs && logs[k] == l;
        assert k in taken;
      }
    }

    /**
     * `loadLogs`: the nodes of one session, one entry per stored node, ordered by
     * timestamp.
     */
    method LoadLogs(sessionId: Id) returns (r: seq<Log>)
      ensures forall l :: l in r <==> l in logs.Values && l.sessionId == sessionId
      ensures |r| == |SessionKeys(sessionId)|
      ensures Sorted(r, LogTimestamp, false)
    {
      var found := CollectSession(sessionId);
      r := SortBy(found, LogTimestamp, false);
      SortByMembers(found, LogTimestamp, false);
      SortBySorted(found, LogTimestamp, false);
    }

    /** `saveLog`: the node is stored under its id, replacing any node with that id. */
    method SaveLog(log: Log)
      modifies this`logs
      ensures logs == old(logs)[log.id := log]
    {
      logs := logs[log.id := log];
    }

    method UpdateLogText(id: Id, text: string)
      modifies this`logs
      ensures logs == Updated(old(logs), id, SetText(text))
    {
      if id in logs {
        logs := logs[id := logs[id].(text := text)];
      }
    }

    method UpdateLogParent(id: Id, parentId: Option<Id>)
      modifies this`logs
      ensures logs == Updated(old(logs), id, SetParent(parentId))
    {
      if id in logs {
        logs := logs[id := logs[id].(parentId := parentId)];
      }
    }

    method UpdateActiveChild(id: Id, activeChildId: Option<Id>)
      modifies this`logs
      ensures logs == Updated(old(logs), id, SetActiveChild(activeChildId))
    {
      if id in logs {
        logs := logs[id := logs[id].(activeChildId := activeChildId)];
      }
    }

    /** `deleteLog`: the node goes; its children are not touched. */
    method DeleteLog(id: Id)
      modifies this`logs
      ensures logs == old(logs) - {id}
    {
      logs := logs - {id};
    }

    method CreateOrUpdateSession(id: Id, title: string, now: string)
      modifies this`sessions
      ensures sessions == CreatedOrTouched(old(sessions), id, title, now)
    {
      if id !in sessions {
        sessions := sessions[id := SessionMeta(id, title, now, now)];
      } else {
        sessions := sessions[id := sessions[id].(lastUpdatedAt := now)];
      }
    }

    method GetSession(id: Id) returns (r: Option<SessionMeta>)
      ensures r.Some? <==> id in sessions
      ensures r.Some? ==> r.value == sessions[id]
    {
      r := if id in sessions then Some(sessions[id]) else None;
    }

    method UpdateSessionTitle(id: Id, title: string, now: string)
      modifies this`sessions
      ensures sessions == Retitled(old(sessions), id, title, now)
    {
      var existing := GetSession(id);
      if existing.Some? {
        sessions := sessions[id := sessions[id].(title := title, lastUpdatedAt := now)];
      } else {
        sessions := sessions[id := SessionMeta(id, title, now, now)];
      }
    }

    method TouchSession(id: Id, now: string)
      modifies this`sessions
      ensures sessions == Touched(old(sessions), id, now)
    {
      if id in sessions {
        sessions := sessions[id := sessions[id].(lastUpdatedAt := now)];
      }
    }

    /**
     * `getLatestSessionId`: the last session in `lastUpdatedAt` order (the greatest id
     * among equal times), none when there are no sessions.
     */
    method GetLatestSessionId() returns (r: Option<Id>)
      ensures r.None? <==> sessions == map[]
      ensures r.Some? ==> r.value in sessions && forall k :: k in sessions ==> !After(sessions, k, r.value)
    {
      r := None;
      var rest := sessions.Keys;
      while rest != {}
        invariant rest <= sessions.Keys
        invariant r.None? <==> rest == sessions.Keys
        invariant r.Some? ==> r.value in sessions && forall k :: k in sessions && k !in rest ==> !After(sessions, k, r.value)
        decreases rest
      {
        var k :| k in rest;
        AfterAsymmetric(sessions, k, k);
        if r.None? {
          r := Some(k);
        } else if After(sessions, k, r.value) {
          var best := r.value;
          AfterAsymmetric(sessions, k, best);
          forall j | j in sessions && j !in rest
            ensures !After(sessions, j, k)
          {
            AfterTransitive(sessions, k, best, j);
          }
          r := Some(k);
        }
        rest := rest - {k};
      }
    }

    /** `deleteSession`: the record and every node of the session are removed. */
    method DeleteSession(sessionId: Id)
      modifies this`sessions, this`logs
      ensures logs == WithoutSessionLogs(old(logs), sessionId)
      ensures sessions == old(sessions) - {sessionId}
    {
      logs := map k | k in logs && logs[k].sessionId != sessionId :: logs[k];
      sessions := sessions - {sessionId};
    }

    /**
     * `duplicateSession`: an unknown source throws `Session not found` and writes nothing;
     * otherwise every node of the source gets a fresh id (`newIds(0)`, `newIds(1)`, ... in
     * the order the nodes are read), the copies are stored with their links remapped,
     * and the new record is titled with the copy suffix.
     */
    method DuplicateSession(sourceId: Id, newSessionId: Id, newIds: nat -> Id, now: string)
      returns (r: Result<Id>, ghost idMap: map<Id, Id>)
      requires newSessionId !in sessions
      requires forall i, j :: i != j ==> newIds(i) != newIds(j)
      requires forall i :: newIds(i) !in logs
      modifies this`sessions, this`logs
      ensures sourceId !in old(sessions) ==> r == Err(SessionNotFound) && sessions == old(sessions) && logs == old(logs)
      ensures sourceId in old(sessions) ==>
        && r == Ok(newSessionId)
        && FreshIdMap(idMap, old(logs), sourceId)
        && sessions == old(sessions)[newSessionId := DuplicateRecord(old(sessions)[sourceId], newSessionId, now)]
        && logs == old(logs) + Copies(old(logs), idMap, newSessionId)
    {
      idMap := map[];
      if sourceId !in sessions {
        return Err(SessionNotFound), idMap;
      }
      var sourceSession := sessions[sourceId];
      var sourceLogs := CollectSessionLogIds(sourceId);
      var ids := AssignIds(sourceLogs, newIds);
      assert ids.Keys == SessionLogIds(logs, sourceId);
      idMap := ids;
      var copies := Copies(logs, ids, newSessionId);
      sessions := sessions[newSessionId := SessionMeta(newSessionId, sourceSession.title + CopySuffix, now, now)];
      logs := logs + copies;
      r := Ok(newSessionId);
    }

    /** The ids of the source session's nodes, each once. */
    method CollectSessionLogIds(sessionId: Id) returns (ids: seq<Id>)
      ensures forall j, k :: 0 <= j < k < |ids| ==> ids[j] != ids[k]
      ensures forall k :: k in ids <==> k in SessionLogIds(logs, sessionId)
    {
      ids := [];
      var rest := logs.Keys;
      while rest != {}
        invariant rest <= logs.Keys
        invariant forall j, k :: 0 <= j < k < |ids| ==> ids[j] != ids[k]
        invariant forall k :: k in ids <==> k in logs && k !in rest && logs[k].sessionId == sessionId
        decreases rest
      {
        var k :| k in rest;
        if logs[k].sessionId == sessionId {
          ids := ids + [k];
        }
        rest := rest - {k};
      }
    }
  }

  /** The `forEach` that fills `idMap`: the `i`-th node read gets `newIds(i)`. */
  method AssignIds(sourceLogs: seq<Id>, newIds: nat -> Id) returns (ids: map<Id, Id>)
    requires forall i, j :: i != j ==> newIds(i) != newIds(j)
    requires forall j, k :: 0 <= j < k < |sourceLogs| ==> sourceLogs[j] != sourceLogs[k]
    ensures forall k :: k in ids <==> k in sourceLogs
    ensures forall j :: 0 <= j < |sourceLogs| ==> ids[sourceLogs[j]] == newIds(j)
    ensures Injective(ids)
  {
    ids := map[];
    for i := 0 to |sourceLogs|
      invariant forall k :: k in ids <==> k in sourceLogs[..i]
      invariant forall j :: 0 <= j < i ==> ids[sourceLogs[j]] == newIds(j)
    {
      ids := ids[sourceLogs[i] := newIds(i)];
    }
    assert sourceLogs[..|sourceLogs|] == sourceLogs;
    forall a, b | a in ids && b in ids && a != b ensures ids[a] != ids[b] {
      var ja :| 0 <= ja < |sourceLogs| && sourceLogs[ja] == a;
      var jb :| 0 <= jb < |sourceLogs| && sourceLogs[jb] == b;
    }
  }

  function LogTimestamp(l: Log): string {
    l.timestamp
  }
}
