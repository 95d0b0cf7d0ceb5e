/**
  The registry of sockets, endpoints and subscription filters (GlobalData.cpp). Each method stands for
  one API call; the calls of the library are taken to succeed.
 */
module Registry {
  import opened Wrappers
  import opened Sockets

  /** What the library knows about one socket. A subscription can be counted more than once there. */
  datatype LibrarySocket = LibrarySocket(subscriptions: multiset<string>, endpoints: multiset<string>)

  datatype SocketTypeData = SocketTypeData(list: seq<string>, socket: Option<LibrarySocket>)

  datatype FilterError = Duplicated | Missing

  const NEW_SOCKET := LibrarySocket(multiset{}, multiset{})

  const NOTHING := SocketTypeData([], None)

  /** The topics of which some subscription is a prefix are delivered (RFC 29/PUBSUB, SUB). */
  ghost predicate Delivers(subscriptions: multiset<string>, topic: string) {
    exists filter :: filter in subscriptions && filter <= topic
  }

  predicate NoDuplicates(filters: seq<string>) {
    forall i, j :: 0 <= i < j < |filters| ==> filters[i] != filters[j]
  }

  /** The endpoints listed for a socket are those the library has; without a socket none is listed. */
  predicate Listed(d: SocketTypeData) {
    if d.socket.None? then d.list == [] else d.socket.value.endpoints == multiset(d.list)
  }

  /** The filters listed are the subscriptions of the current subscriber socket. */
  predicate Subscribed(socket: Option<LibrarySocket>, filters: seq<string>) {
    && NoDuplicates(filters)
    && if socket.None? then filters == [] else socket.value.subscriptions == multiset(filters)
  }

  class GlobalData {
    var client: SocketTypeData
    var server: SocketTypeData
    var pub: SocketTypeData
    var sub: SocketTypeData
    var filters: seq<string>

    predicate Valid()
      reads this
    {
      Listed(client) && Listed(server) && Listed(pub) && Listed(sub) && Subscribed(sub.socket, filters)
    }

    function Data(st: SocketType): SocketTypeData
      reads this
    {
      match st
      case Client => client
      case Publisher => pub
      case Server => server
      case Subscriber => sub
    }

    constructor ()
      ensures Valid() && forall st: SocketType :: Data(st) == NOTHING
    {
      client, server, pub, sub, filters := NOTHING, NOTHING, NOTHING, NOTHING, [];
    }

    method SetData(st: SocketType, d: SocketTypeData)
      modifies this`client, this`server, this`pub, this`sub
      ensures client == (if st == Client then d else old(client)) && server == (if st == Server then d else old(server))
      ensures pub == (if st == Publisher then d else old(pub)) && sub == (if st == Subscriber then d else old(sub))
    {
      match st
      case Client => client := d;
      case Publisher => pub := d;
      case Server => server := d;
      case Subscriber => sub := d;
    }

    /** The socket is created on first use and has no subscription then. */
    method ZMQSocket(st: SocketType) returns (socket: LibrarySocket)
      requires Valid()
      modifies this`client, this`server, this`pub, this`sub
      ensures Valid() && Data(st) == old(Data(st)).(socket := Some(socket))
      ensures socket == if old(Data(st)).socket.Some? then old(Data(st)).socket.value else NEW_SOCKET
      ensures (st == Client || client == old(client)) && (st == Server || server == old(server))
      ensures (st == Publisher || pub == old(pub)) && (st == Subscriber || sub == old(sub))
    {
      var d := Data(st);
      if d.socket.Some? {
        return d.socket.value;
      }
      socket := NEW_SOCKET;
      SetData(st, d.(socket := Some(socket)));
    }

    predicate HasSocket(st: SocketType)
      reads this
    {
      Data(st).socket.Some?
    }

    predicate HasBindsOrConnections(st: SocketType)
      reads this
    {
      Data(st).list != []
    }

    /** DoBindOrConnect; the endpoint listed is the one the library reports back. */
    method DoBindOrConnect(point: string, st: SocketType)
      requires Valid()
      modifies this`client, this`server, this`pub, this`sub
      ensures Valid() && HasSocket(st) && HasBindsOrConnections(st) && Data(st).list == old(Data(st)).list + [point]
      ensures (st == Client || client == old(client)) && (st == Server || server == old(server))
      ensures (st == Publisher || pub == old(pub)) && (st == Subscriber || sub == old(sub))
    {
      var socket := ZMQSocket(st);
      var bound := socket.(endpoints := socket.endpoints + multiset{point});
      SetData(st, SocketTypeData(Data(st).list + [point], Some(bound)));
    }

    /** Index of a filter in the list, or the list's length. */
    method Find(filter: string) returns (i: nat)
      ensures i <= |filters| && (i < |filters| ==> filters[i] == filter)
      ensures i == |filters| <==> filter !in filters
    {
      i := 0;
      while i < |filters| && filters[i] != filter
        invariant i <= |filters| && forall j :: 0 <= j < i ==> filters[j] != filter
      {
        i := i + 1;
      }
    }

    method AddSubscriberMessageFilter(filter: string) returns (r: Result<(), FilterError>)
      requires Valid()
      modifies this`client, this`server, this`pub, this`sub, this`filters
      ensures Valid() && HasSocket(Subscriber)
      ensures client == old(client) && server == old(server) && pub == old(pub)
      ensures r == if filter in old(filters) then Failure(Duplicated) else Success(())
      ensures filters == if r.Success? then old(filters) + [filter] else old(filters)
    {
      var socket := ZMQSocket(Subscriber);
      var i := Find(filter);
      if i < |filters| {
        return Failure(Duplicated);
      }
      SetData(Subscriber, sub.(socket := Some(socket.(subscriptions := socket.subscriptions + multiset{filter}))));
      filters := filters + [filter];
      r := Success(());
    }

    /** ZMQ_UNSUBSCRIBE */
    method Unsubscribe(entry: string)
      requires HasSocket(Subscriber)
      modifies this`client, this`server, this`pub, this`sub
      ensures sub == old(sub).(socket := Some(Unsubscribed(old(sub).socket.value, entry)))
      ensures client == old(client) && server == old(server) && pub == old(pub)
    {
      SetData(Subscriber, sub.(socket := Some(Unsubscribed(sub.socket.value, entry))));
    }

    /** The empty filter stands for all filters, even if it has been added as one. */
    method RemoveSubscriberMessageFilter(filter: string) returns (r: Result<(), FilterError>)
      requires Valid()
      modifies this`client, this`server, this`pub, this`sub, this`filters
      ensures Valid() && HasSocket(Subscriber)
      ensures client == old(client) && server == old(server) && pub == old(pub)
      ensures filter == "" ==> r.Success? && filters == []
      ensures filter != "" ==> r == if filter in old(filters) then Success(()) else Failure(Missing)
      ensures r.Failure? ==> filters == old(filters)
      ensures filter != "" && r.Success? ==>
        exists i :: 0 <= i < |old(filters)| && old(filters)[i] == filter && filters == Erased(old(filters), i)
      ensures filter != "" && r.Success? ==>
        filter !in filters && forall f :: f != filter ==> (f in filters <==> f in old(filters))
    {
      var _ := ZMQSocket(Subscriber);
      if filter == "" {
        UnsubscribeAll();
        return Success(());
      }
      var i := Find(filter);
      if i == |filters| {
        return Failure(Missing);
      }
      ErasedIsWithout(filters, i);
      ErasedMembers(filters, i);
      hide Erased, NoDuplicates;
      Unsubscribe(filter);
      filters := Erased(filters, i);
      r := Success(());
    }

    method UnsubscribeAll()
      requires Valid() && HasSocket(Subscriber)
      modifies this`client, this`server, this`pub, this`sub, this`filters
      ensures Valid() && HasSocket(Subscriber) && filters == []
      ensures client == old(client) && server == old(server) && pub == old(pub)
    {
      for i := 0 to |filters|
        invariant client == old(client) && server == old(server) && pub == old(pub) && filters == old(filters)
        invariant HasSocket(Subscriber) && Listed(sub) && sub.socket.value.subscriptions == multiset(filters[i..])
      {
        assert filters[i..] == [filters[i]] + filters[i + 1..];
        Unsubscribe(filters[i]);
      }
      assert filters[|filters|..] == [];
      filters := [];
    }

    /** Main result: afterwards there is no socket, no endpoint and no filter, whatever was there before. */
    method CloseConnections()
      requires Valid()
      modifies this
      ensures Valid() && filters == [] && forall st: SocketType :: Data(st) == NOTHING
    {
      if HasSocket(Subscriber) {
        var _ := RemoveSubscriberMessageFilter("");
      }
      Close(Client);
      Close(Subscriber);
      Close(Publisher);
      Close(Server);
    }

    /** One turn of the loop of CloseConnections. */
    method Close(st: SocketType)
      requires Valid() && filters == []
      modifies this`client, this`server, this`pub, this`sub
      ensures Valid() && Data(st) == NOTHING
      ensures (st == Client || client == old(client)) && (st == Server || server == old(server))
      ensures (st == Publisher || pub == old(pub)) && (st == Subscriber || sub == old(sub))
    {
      if !HasSocket(st) {
        return;
      }
      SetData(st, NOTHING);
    }
  }

  function Unsubscribed(socket: LibrarySocket, entry: string): LibrarySocket {
    socket.(subscriptions := socket.subscriptions - multiset{entry})
  }

  function Erased(filters: seq<string>, i: nat): seq<string>
    requires i < |filters|
  {
    filters[..i] + filters[i + 1..]
  }

  lemma {:induction false} ErasedIsWithout(filters: seq<string>, i: nat)
    requires i < |filters| && NoDuplicates(filters)
    ensures multiset(Erased(filters, i)) == multiset(filters) - multiset{filters[i]} && NoDuplicates(Erased(filters, i))
  {
    assert filters == (filters[..i] + [filters[i]]) + filters[i + 1..];
    assert multiset(filters) == multiset(filters[..i]) + multiset{filters[i]} + multiset(filters[i + 1..]);
  }

  lemma {:induction false} ErasedMembers(filters: seq<string>, i: nat)
    requires i < |filters| && NoDuplicates(filters)
    ensures filters[i] !in Erased(filters, i)
    ensures forall f :: f != filters[i] ==> (f in Erased(filters, i) <==> f in filters)
  {
    var rest := Erased(filters, i);
    forall f | f != filters[i] && f in filters
      ensures f in rest
    {
      var k :| 0 <= k < |filters| && filters[k] == f;
      assert rest[if k < i then k else k - 1] == f;
    }
    assert forall k :: 0 <= k < |rest| ==> rest[k] == filters[if k < i then k else k + 1];
  }

  /** A subscriber is delivered exactly the topics that start with a listed filter. */
  lemma {:induction false} DeliveredIffListed(socket: LibrarySocket, filters: seq<string>, topic: string)
    requires Subscribed(Some(socket), filters)
    ensures Delivers(socket.subscriptions, topic) <==> exists i :: 0 <= i < |filters| && filters[i] <= topic
  {
    if Delivers(socket.subscriptions, topic) {
      var filter :| filter in socket.subscriptions && filter <= topic;
      assert filter in filters;
    }
    if i :| 0 <= i < |filters| && filters[i] <= topic {
      assert filters[i] in multiset(filters);
    }
  }

  /** Removing one filter takes away just the topics that no other filter lets through. */
  lemma {:induction false} OtherFiltersStay(filters: seq<string>, i: nat, topic: string)
    requires i < |filters| && NoDuplicates(filters)
    ensures Delivers(multiset(Erased(filters, i)), topic) <==>
            exists j :: 0 <= j < |filters| && j != i && filters[j] <= topic
  {
    var rest := Erased(filters, i);
    ErasedIsWithout(filters, i);
    ErasedMembers(filters, i);
    DeliveredIffListed(LibrarySocket(multiset(rest), multiset{}), rest, topic);
    hide Erased, Delivers;
    if j :| 0 <= j < |filters| && j != i && filters[j] <= topic {
      assert filters[j] in rest;
      var k :| 0 <= k < |rest| && rest[k] == filters[j];
    }
    if k :| 0 <= k < |rest| && rest[k] <= topic {
      assert rest[k] in rest;
      var j :| 0 <= j < |filters| && filters[j] == rest[k];
    }
  }
}
