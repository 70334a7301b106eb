/** The tracker's collector, with its records of active connections updated in place. */
module ConnTrackerImpl {
  import CT = ConnTracker
  import opened ConnTracker

  class ConnectionInfo {
    const srcIp: Ip
    const srcPort: Port
    const dstIp: Ip
    const dstPort: Port
    const id: Id
    var first: Time
    var last: Time
    var initiator: Initiator
    var endState: EndState

    function View(): Entry
      reads this
    {
      Entry(srcIp, srcPort, dstIp, dstPort, id, first, last, initiator, endState)
    }

    constructor (p: Packet)
      ensures View() == NewEntry(p)
    {
      srcIp, srcPort, dstIp, dstPort, id := p.srcIp, p.srcPort, p.dstIp, p.dstPort, p.id;
      first, last := p.time, p.time;
      initiator, endState := UnknownInitiator, ConnectionOpen;
    }

    method AugmentWith(p: Packet)
      modifies this
      ensures View() == Augment(old(View()), p)
    {
      if p.time < first {
        first := p.time;
      }
      if p.time > last {
        last := p.time;
      }
      // Try to infer the initiator, if not already inferred.
      if initiator.UnknownInitiator? && p.syn {
        if p.ack {
          // The packet's destination connected to its source.
          initiator := if srcIp == p.srcIp && srcPort == p.srcPort then DestInitiator else SourceInitiator;
        } else {
          // The packet's source connected to its destination.
          initiator := if srcIp == p.srcIp && srcPort == p.srcPort then SourceInitiator else DestInitiator;
        }
      }
      // FIN does not override a reset.
      if p.fin && endState.ConnectionOpen? {
        endState := ConnectionClosed;
      }
      if p.rst {
        endState := ConnectionReset;
      }
    }
  }

  class Collector {
    var closed: bool
    var activeConnections: map<Id, ConnectionInfo>

    // What the downstream collector has received.
    var out: seq<Output>

    ghost var Repr: set<object>

    /** Every record is filed under its own ID. */
    ghost predicate Valid()
      reads this, Repr
    {
      && this in Repr
      && forall id :: id in activeConnections ==> activeConnections[id] in Repr && activeConnections[id].id == id
    }

    ghost function Active(): map<Id, Entry>
      requires Valid()
      reads this, Repr
    {
      map id | id in activeConnections :: activeConnections[id].View()
    }

    ghost function View(): Tracker
      requires Valid()
      reads this, Repr
    {
      Tracker(Active(), closed, out)
    }

    constructor ()
      ensures Valid() && fresh(Repr) && View() == NewTracker
    {
      closed, activeConnections, out := false, map[], [];
      Repr := {this};
    }

    method AddConnection(p: Packet)
      requires Valid() && p.id !in activeConnections
      modifies this
      ensures Valid() && fresh(Repr - old(Repr))
      ensures View() == old(View()).(active := old(Active())[p.id := NewEntry(p)])
    {
      var info := new ConnectionInfo(p);
      activeConnections := activeConnections[p.id := info];
      Repr := Repr + {info};
      assert Active() == old(Active())[p.id := info.View()];
    }

    method AugmentConnection(p: Packet)
      requires Valid() && p.id in activeConnections
      modifies Repr
      ensures Valid() && Repr == old(Repr)
      ensures View() == old(View()).(active := old(Active())[p.id := Augment(old(Active())[p.id], p)])
    {
      var info := activeConnections[p.id];
      info.AugmentWith(p);
      forall id | id in activeConnections && id != p.id
        ensures activeConnections[id].View() == old(Active())[id]
      {
        assert activeConnections[id].View() == old(activeConnections[id].View());
      }
      assert Active() == old(Active())[p.id := info.View()];
    }

    method Forward(traffic: Traffic)
      requires Valid()
      modifies this
      ensures Valid() && Repr == old(Repr)
      ensures View() == old(View()).(out := old(out) + [Forwarded(traffic)])
    {
      out := out + [Forwarded(traffic)];
      assert Active() == old(Active());
    }

    method Process(traffic: Traffic)
      requires Valid()
      modifies Repr
      ensures Valid() && fresh(Repr - old(Repr))
      ensures View() == CT.Process(old(View()), traffic)
    {
      if traffic.Tcp? {
        var p := traffic.packet;
        if closed {
          return;
        }
        if p.id !in activeConnections {
          // The last ACK of a closed connection looks like a new connection.
          if p.payloadLength == 0 && p.ack && !(p.fin || p.rst || p.syn) {
            return;
          }
          if p.rst {
            return;
          }
          AddConnection(p);
          return;
        }
        AugmentConnection(p);
      }
      Forward(traffic);
    }

    /** Flushes a connection if it exists, and says whether it did. */
    method FlushConnection(id: Id) returns (existed: bool)
      requires Valid()
      modifies this
      ensures Valid() && Repr == old(Repr)
      ensures existed == (id in old(Active()))
      ensures View() == CT.FlushConnection(old(View()), id)
    {
      existed := id in activeConnections;
      if existed {
        out := out + [Summary(activeConnections[id].View())];
        activeConnections := activeConnections - {id};
        assert Active() == old(Active()) - {id};
      }
    }

    /** Flushes every active connection, in some order. */
    method Close()
      requires Valid()
      modifies this
      ensures Valid() && Repr == old(Repr)
      ensures exists order :: Enabled(old(View()), Shut(order)) && View() == CT.Close(old(View()), order)
      ensures Active() == map[]
    {
      closed := true;
      assert Active() == old(Active());
      ghost var start := View();
      assert start == old(View()).(closed := true) && Active().Keys == activeConnections.Keys;
      assert old(View()).active == start.active;
      hide Valid, Active;
      var todo := activeConnections.Keys;
      ghost var order: seq<Id> := [];
      while todo != {}
        invariant Valid() && Repr == old(Repr)
        invariant View() == FlushAll(start, order)
        invariant Active().Keys == todo
        invariant forall id :: id in start.active ==> id in todo || id in order
        decreases todo
      {
        var id :| id in todo;
        var existed := FlushConnection(id);
        todo := todo - {id};
        assert (order + [id])[..|order|] == order;
        order := order + [id];
      }
      assert Enabled(old(View()), Shut(order)) && View() == CT.Close(old(View()), order);
    }
  }
}
