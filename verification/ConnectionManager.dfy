/** The in-memory registry of WebSocket connections with its two secondary indexes. */
module ConnectionManager {
  import opened Primitives
  import opened Wrappers

  datatype ManagedConnection = ManagedConnection(id: Uuid, user: Uuid, session: Uuid)

  type Connections = map<Uuid, ManagedConnection>
  type Index = map<Uuid, set<Uuid>>

  datatype Column = ByUser | BySession

  // ---------------------------------------------------------------- specification

  function KeyOf(c: ManagedConnection, column: Column): Uuid {
    if column.ByUser? then c.user else c.session
  }

  /** The connections whose column holds `key`. */
  function Members(connections: Connections, column: Column, key: Uuid): set<Uuid> {
    set id | id in connections && KeyOf(connections[id], column) == key
  }

  /** The inverse image of a column, without entries for keys nobody holds. */
  function InverseImage(connections: Connections, column: Column): Index {
    map key | key in (set id | id in connections :: KeyOf(connections[id], column)) :: Members(connections, column, key)
  }

  function OfUser(connections: Connections, user: Uuid): set<Uuid> {
    set id | id in connections && connections[id].user == user
  }

  function OfSession(connections: Connections, session: Uuid): set<Uuid> {
    set id | id in connections && connections[id].session == session
  }

  lemma ColumnsAreFields(connections: Connections, key: Uuid)
    ensures Members(connections, ByUser, key) == OfUser(connections, key)
    ensures Members(connections, BySession, key) == OfSession(connections, key)
  {
  }

  predicate NamedById(connections: Connections) {
    forall id :: id in connections ==> connections[id].id == id
  }

  function IdSet(removed: seq<ManagedConnection>): set<Uuid> {
    set c | c in removed :: c.id
  }

  /** `removed` lists exactly the connections under `ids`, each once. */
  ghost predicate Lists(removed: seq<ManagedConnection>, connections: Connections, ids: set<Uuid>) {
    && |removed| == |ids|
    && (forall c :: c in removed ==> c.id in ids && c.id in connections && connections[c.id] == c)
    && IdSet(removed) == ids
  }

  lemma IndexedIffHeld(connections: Connections, column: Column, key: Uuid)
    ensures key in InverseImage(connections, column) <==> Members(connections, column, key) != {}
  {
    if Members(connections, column, key) != {} {
      var id :| id in Members(connections, column, key);
      assert id in connections && KeyOf(connections[id], column) == key;
    }
    if key in InverseImage(connections, column) {
      var id :| id in connections && KeyOf(connections[id], column) == key;
      assert id in Members(connections, column, key);
    }
  }

  lemma SameIndex(a: Index, b: Index)
    requires forall key :: (key in a <==> key in b) && (key in a ==> a[key] == b[key])
    ensures a == b
  {
  }

  lemma InverseImageAfterRemoval(connections: Connections, id: Uuid, column: Column)
    requires id in connections
    ensures var key := KeyOf(connections[id], column);
            var rest := Members(connections, column, key) - {id};
            InverseImage(connections - {id}, column) ==
            if rest == {} then InverseImage(connections, column) - {key}
            else InverseImage(connections, column)[key := rest]
  {
    var fewer := connections - {id};
    var key := KeyOf(connections[id], column);
    var rest := Members(connections, column, key) - {id};
    var a := InverseImage(fewer, column);
    var b := if rest == {} then InverseImage(connections, column) - {key}
      else InverseImage(connections, column)[key := rest];
    forall k ensures (k in a <==> k in b) && (k in a ==> a[k] == b[k]) {
      IndexedIffHeld(fewer, column, k);
      IndexedIffHeld(connections, column, k);
      assert Members(fewer, column, k) == Members(connections, column, k) - {id};
      assert k != key ==> id !in Members(connections, column, k);
    }
    SameIndex(a, b);
  }

  lemma InverseImageAfterInsert(connections: Connections, c: ManagedConnection, column: Column)
    requires c.id !in connections
    ensures var key := KeyOf(c, column);
            InverseImage(connections[c.id := c], column) ==
            InverseImage(connections, column)[key := Members(connections, column, key) + {c.id}]
  {
    var more := connections[c.id := c];
    var key := KeyOf(c, column);
    var a := InverseImage(more, column);
    var b := InverseImage(connections, column)[key := Members(connections, column, key) + {c.id}];
    forall k ensures (k in a <==> k in b) && (k in a ==> a[k] == b[k]) {
      IndexedIffHeld(more, column, k);
      IndexedIffHeld(connections, column, k);
      assert Members(more, column, k) == Members(connections, column, k) + if k == key then {c.id} else {};
    }
    SameIndex(a, b);
  }

  lemma RemovedOneMore(connections: Connections, ids: set<Uuid>, remaining: set<Uuid>, id: Uuid)
    requires id in remaining && remaining <= ids
    ensures connections - (ids - remaining) - {id} == connections - (ids - (remaining - {id}))
    ensures ids - (remaining - {id}) == (ids - remaining) + {id}
  {
  }

  lemma ListsOneMore(removed: seq<ManagedConnection>, connections: Connections, ids: set<Uuid>, id: Uuid)
    requires NamedById(connections) && Lists(removed, connections, ids) && id in connections && id !in ids
    ensures Lists(removed + [connections[id]], connections, ids + {id})
  {
    assert IdSet(removed + [connections[id]]) == IdSet(removed) + {id};
  }

  // ---------------------------------------------------------------- the program

  class ConnectionManager {
    var connections: Connections
    var userConnections: Index
    var sessionConnections: Index

    /** Both indexes are exactly the inverse images of the connection map. */
    ghost predicate Valid()
      reads this
    {
      && NamedById(connections)
      && userConnections == InverseImage(connections, ByUser)
      && sessionConnections == InverseImage(connections, BySession)
    }

    constructor ()
      ensures Valid() && connections == map[]
    {
      connections, userConnections, sessionConnections := map[], map[], map[];
    }

    /** Register one authenticated connection under its new id. */
    method Register(id: Uuid, user: Uuid, session: Uuid) returns (c: ManagedConnection)
      requires Valid() && id !in connections
      modifies this
      ensures Valid()
      ensures c == ManagedConnection(id, user, session) && connections == old(connections)[id := c]
    {
      c := ManagedConnection(id, user, session);
      InverseImageAfterInsert(connections, c, ByUser);
      InverseImageAfterInsert(connections, c, BySession);
      UnindexedIsEmpty(user, session);
      connections := connections[id := c];
      var users := if user in userConnections then userConnections[user] else {};
      userConnections := userConnections[user := users + {id}];
      var sessions := if session in sessionConnections then sessionConnections[session] else {};
      sessionConnections := sessionConnections[session := sessions + {id}];
    }

    lemma UnindexedIsEmpty(user: Uuid, session: Uuid)
      requires Valid()
      ensures Members(connections, ByUser, user) == if user in userConnections then userConnections[user] else {}
      ensures Members(connections, BySession, session) == if session in sessionConnections
              then sessionConnections[session] else {}
    {
    }

    method Unregister(id: Uuid) returns (r: Option<ManagedConnection>)
      requires Valid()
      modifies this
      ensures Valid()
      ensures connections == old(connections) - {id}
      ensures r == if id in old(connections) then Some(old(connections)[id]) else None
    {
      r := RemoveConnection(id);
    }

    /** Remove one connection and clean both indexes. */
    method RemoveConnection(id: Uuid) returns (r: Option<ManagedConnection>)
      requires Valid()
      modifies this
      ensures Valid()
      ensures connections == old(connections) - {id}
      ensures r == if id in old(connections) then Some(old(connections)[id]) else None
    {
      if id !in connections {
        return None;
      }
      var c := connections[id];
      InverseImageAfterRemoval(connections, id, ByUser);
      InverseImageAfterRemoval(connections, id, BySession);
      UnindexedIsEmpty(c.user, c.session);
      connections := connections - {id};
      userConnections := RemoveFromIndex(userConnections, c.user, id);
      sessionConnections := RemoveFromIndex(sessionConnections, c.session, id);
      return Some(c);
    }

    /** Remove a connection id and discard an empty entry. */
    static method RemoveFromIndex(index: Index, key: Uuid, id: Uuid) returns (r: Index)
      ensures key !in index ==> r == index
      ensures key in index && index[key] <= {id} ==> r == index - {key}
      ensures key in index && !(index[key] <= {id}) ==> r == index[key := index[key] - {id}]
    {
      if key !in index {
        return index;
      }
      var ids := index[key] - {id};
      r := index[key := ids];
      if ids == {} {
        r := r - {key};
      }
    }

    /** Remove the connections under `ids`, collecting each one that was still there. */
    method RemoveAll(ids: set<Uuid>) returns (removed: seq<ManagedConnection>)
      requires Valid() && ids <= connections.Keys
      modifies this
      ensures Valid()
      ensures connections == old(connections) - ids
      ensures Lists(removed, old(connections), ids)
    {
      removed := [];
      ghost var before := connections;
      var remaining := ids;
      while remaining != {}
        invariant Valid()
        invariant remaining <= ids
        invariant connections == before - (ids - remaining)
        invariant Lists(removed, before, ids - remaining)
        decreases remaining
      {
        var id :| id in remaining;
        ListsOneMore(removed, before, ids - remaining, id);
        RemovedOneMore(before, ids, remaining, id);
        var c := RemoveConnection(id);
        if c.Some? {
          removed := removed + [c.value];
        }
        remaining := remaining - {id};
      }
      assert ids - remaining == ids;
    }

    /** Close every connection of one authentication session. */
    method CloseSession(session: Uuid) returns (count: nat, closed: seq<ManagedConnection>)
      requires Valid()
      modifies this
      ensures Valid()
      ensures connections == old(connections) - OfSession(old(connections), session)
      ensures Lists(closed, old(connections), OfSession(old(connections), session)) && count == |closed|
    {
      UnindexedIsEmpty(0, session);
      ColumnsAreFields(connections, session);
      var ids := if session in sessionConnections then sessionConnections[session] else {};
      closed := RemoveAll(ids);
      count := |closed|;
    }

    /** Close every connection of one user. */
    method CloseUser(user: Uuid) returns (count: nat, closed: seq<ManagedConnection>)
      requires Valid()
      modifies this
      ensures Valid()
      ensures connections == old(connections) - OfUser(old(connections), user)
      ensures Lists(closed, old(connections), OfUser(old(connections), user)) && count == |closed|
    {
      UnindexedIsEmpty(user, 0);
      ColumnsAreFields(connections, user);
      var ids := if user in userConnections then userConnections[user] else {};
      closed := RemoveAll(ids);
      count := |closed|;
    }

    /** Close every active connection at shutdown. */
    method CloseAll() returns (count: nat, closed: seq<ManagedConnection>)
      requires Valid()
      modifies this
      ensures Valid()
      ensures connections == map[]
      ensures Lists(closed, old(connections), old(connections).Keys) && count == |closed|
    {
      closed := RemoveAll(connections.Keys);
      count := |closed|;
    }
  }

  // ---------------------------------------------------------------- any sequence of calls

  datatype Call =
    | Register(connection: ManagedConnection)
    | Unregister(id: Uuid)
    | CloseSession(session: Uuid)
    | CloseUser(user: Uuid)
    | CloseAll

  /** The ids one call hands out for removal. */
  function Handed(connections: Connections, call: Call): set<Uuid> {
    match call
    case Register(_) => {}
    case Unregister(id) => {id} * connections.Keys
    case CloseSession(session) => OfSession(connections, session)
    case CloseUser(user) => OfUser(connections, user)
    case CloseAll => connections.Keys
  }

  function Apply(connections: Connections, call: Call): Connections {
    if call.Register? then connections[call.connection.id := call.connection]
    else connections - Handed(connections, call)
  }

  /** Connection ids are drawn fresh: none is used twice in a manager's life. */
  predicate FreshIds(used: set<Uuid>, calls: seq<Call>)
    decreases |calls|
  {
    calls == [] ||
    if calls[0].Register? then
      calls[0].connection.id !in used && FreshIds(used + {calls[0].connection.id}, calls[1..])
    else FreshIds(used, calls[1..])
  }

  function After(connections: Connections, calls: seq<Call>): Connections
    decreases |calls|
  {
    if calls == [] then connections else After(Apply(connections, calls[0]), calls[1..])
  }

  /** How many of the calls hand out `id`. */
  function TimesHanded(connections: Connections, calls: seq<Call>, id: Uuid): nat
    decreases |calls|
  {
    if calls == [] then 0
    else
      (if id in Handed(connections, calls[0]) then 1 else 0)
      + TimesHanded(Apply(connections, calls[0]), calls[1..], id)
  }

  function TimesRegistered(calls: seq<Call>, id: Uuid): nat {
    if calls == [] then 0
    else (if calls[0].Register? && calls[0].connection.id == id then 1 else 0) + TimesRegistered(calls[1..], id)
  }

  /**
   Conservation: over any calls each connection is handed out for removal at most once, and
   it is still registered at the end exactly when it was registered and never handed out.
   */
  lemma {:induction false} HandedOutOnce(connections: Connections, used: set<Uuid>, calls: seq<Call>, id: Uuid)
    requires connections.Keys <= used && FreshIds(used, calls)
    ensures var present := if id in connections then 1 else 0;
            var left := if id in After(connections, calls) then 1 else 0;
            && TimesHanded(connections, calls, id) + left == present + TimesRegistered(calls, id)
            && TimesHanded(connections, calls, id) <= 1
            && (id in used && id !in connections ==> TimesHanded(connections, calls, id) == 0)
    decreases |calls|
  {
    if calls != [] {
      var used' := if calls[0].Register? then used + {calls[0].connection.id} else used;
      HandedOutOnce(Apply(connections, calls[0]), used', calls[1..], id);
    }
  }
}
