/**
 * The in-memory list of live users kept by the realtime handlers. A
 * `joinRoom` whose user id resolves appends one entry; a `disconnect` drops
 * every entry of that socket. Each handler then broadcasts the whole list,
 * modelled here as the payload it returns.
 */
module Presence {
  import opened Wrappers
  import opened UserStore

  /** The transport's id for one connection. */
  type SocketId = string

  datatype LiveUser = LiveUser(socketId: SocketId, email: string, name: string)

  /** `entries.filter(u => u.socketId !== sid)` */
  function Without(entries: seq<LiveUser>, sid: SocketId): seq<LiveUser> {
    if entries == [] then []
    else (if entries[0].socketId == sid then [] else [entries[0]]) + Without(entries[1..], sid)
  }

  /** How many entries belong to socket `sid`. */
  function CountOf(entries: seq<LiveUser>, sid: SocketId): nat {
    if entries == [] then 0
    else (if entries[0].socketId == sid then 1 else 0) + CountOf(entries[1..], sid)
  }

  lemma {:induction false} CountOfAppend(a: seq<LiveUser>, b: seq<LiveUser>, sid: SocketId)
    ensures CountOf(a + b, sid) == CountOf(a, sid) + CountOf(b, sid)
  {
    if a != [] {
      assert (a + b)[1..] == a[1..] + b;
      CountOfAppend(a[1..], b, sid);
    } else {
      assert a + b == b;
    }
  }

  /** An entry survives a disconnect of `sid` exactly when it was there and belongs to another socket. */
  lemma {:induction false} WithoutMembers(entries: seq<LiveUser>, sid: SocketId, e: LiveUser)
    ensures e in Without(entries, sid) <==> e in entries && e.socketId != sid
  {
    if entries != [] {
      WithoutMembers(entries[1..], sid, e);
      assert entries == [entries[0]] + entries[1..];
    }
  }

  /** Filtering distributes over concatenation, so the kept entries stay in their original relative order. */
  lemma {:induction false} WithoutAppend(a: seq<LiveUser>, b: seq<LiveUser>, sid: SocketId)
    ensures Without(a + b, sid) == Without(a, sid) + Without(b, sid)
  {
    if a != [] {
      assert (a + b)[1..] == a[1..] + b;
      WithoutAppend(a[1..], b, sid);
    } else {
      assert a + b == b;
    }
  }

  /** A disconnect of a socket that never joined leaves the list as it was. */
  lemma {:induction false} WithoutUnjoined(entries: seq<LiveUser>, sid: SocketId)
    requires CountOf(entries, sid) == 0
    ensures Without(entries, sid) == entries
  {
    if entries != [] {
      WithoutUnjoined(entries[1..], sid);
    }
  }

  /** A disconnect removes exactly the entries of its socket and leaves every other socket's count alone. */
  lemma {:induction false} WithoutCounts(entries: seq<LiveUser>, sid: SocketId, other: SocketId)
    ensures |Without(entries, sid)| == |entries| - CountOf(entries, sid)
    ensures CountOf(Without(entries, sid), sid) == 0
    ensures other != sid ==> CountOf(Without(entries, sid), other) == CountOf(entries, other)
  {
    if entries != [] {
      var head := if entries[0].socketId == sid then [] else [entries[0]];
      WithoutCounts(entries[1..], sid, other);
      CountOfAppend(head, Without(entries[1..], sid), sid);
      CountOfAppend(head, Without(entries[1..], sid), other);
    }
  }

  /** The module-level `liveUsers` array. */
  class LiveUsers {
    var entries: seq<LiveUser>

    /** The list starts empty. */
    constructor ()
      ensures entries == []
    {
      entries := [];
    }

    /**
     * `joinRoom`: `found` is the result of looking the user id up. A miss
     * changes nothing and emits nothing; a hit appends one entry, with no
     * check for an entry of the same socket, and broadcasts the list.
     */
    method JoinRoom(socketId: SocketId, found: Option<User>) returns (broadcast: Option<seq<LiveUser>>)
      modifies this
      ensures found.None? ==> entries == old(entries) && broadcast == None
      ensures found.Some? ==>
        entries == old(entries) + [LiveUser(socketId, found.value.emailId, found.value.firstName + " " + found.value.lastName)]
      ensures found.Some? ==> broadcast == Some(entries)
      ensures found.Some? ==> CountOf(entries, socketId) == old(CountOf(entries, socketId)) + 1
    {
      if found.None? {
        return None;
      }
      var user := found.value;
      var entry := LiveUser(socketId, user.emailId, user.firstName + " " + user.lastName);
      CountOfAppend(entries, [entry], socketId);
      entries := entries + [entry];
      broadcast := Some(entries);
    }

    /** `disconnect`: drops every entry of the socket, keeps the rest in order, and always broadcasts the list. */
    method Disconnect(socketId: SocketId) returns (broadcast: seq<LiveUser>)
      modifies this
      ensures entries == Without(old(entries), socketId)
      ensures broadcast == entries
      ensures CountOf(entries, socketId) == 0
      ensures CountOf(old(entries), socketId) == 0 ==> entries == old(entries)
    {
      WithoutCounts(entries, socketId, socketId);
      if CountOf(entries, socketId) == 0 {
        WithoutUnjoined(entries, socketId);
      }
      entries := Without(entries, socketId);
      broadcast := entries;
    }
  }

  /** Two joins from one socket leave two identical entries, and its disconnect removes both. */
  method JoinTwiceThenDisconnect(sid: SocketId, u: User) returns (afterJoins: seq<LiveUser>, afterDisconnect: seq<LiveUser>)
    ensures |afterJoins| == 2 && afterJoins[0] == afterJoins[1] && CountOf(afterJoins, sid) == 2
    ensures afterDisconnect == []
  {
    var live := new LiveUsers();
    var first := live.JoinRoom(sid, Some(u));
    var second := live.JoinRoom(sid, Some(u));
    afterJoins := live.entries;
    afterDisconnect := live.Disconnect(sid);
    WithoutCounts(afterJoins, sid, sid);
  }
}
