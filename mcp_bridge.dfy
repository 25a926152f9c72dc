/**
 * The bridge's connection registry: a counter that names connections "<name>-<n>"
 * and a map from connection id to the channel feeding that connection's handler.
 * A channel is modelled by the messages sent into it so far.
 */
module McpBridge {
  import opened Wrappers
  import opened Text

  /** `format!("{}-{}", name, n)`. */
  function ConnectionId(name: string, n: nat): string {
    name + "-" + NatToDecimal(n)
  }

  /** The decimal suffix after the last '-' of an id is its counter value. */
  lemma CounterSuffix(name: string, n: nat)
    ensures AfterLast(ConnectionId(name, n), '-') == NatToDecimal(n)
  {
    assert forall i :: 0 <= i < |NatToDecimal(n)| ==> IsDigit(NatToDecimal(n)[i]);
    assert '-' !in NatToDecimal(n);
    AfterLastOfJoin(name, '-', NatToDecimal(n));
  }

  /** Ids from different counter values differ, whatever the names. */
  lemma IdsDistinct(name1: string, n1: nat, name2: string, n2: nat)
    requires n1 != n2
    ensures ConnectionId(name1, n1) != ConnectionId(name2, n2)
  {
    CounterSuffix(name1, n1);
    CounterSuffix(name2, n2);
    NatToDecimalInjective(n1, n2);
  }

  /** The counter value an id was issued with, if it has the shape of an issued id. */
  predicate IssuedUpTo(id: string, counter: nat) {
    var suffix := AfterLast(id, '-');
    '-' in id && suffix != [] && AllDigits(suffix) && DecimalValue(suffix) <= counter
  }

  class MCPBridge {
    var connections: map<string, seq<string>>
    var nextId: nat

    /** Every registered id carries a counter value already handed out. */
    ghost predicate Valid()
      reads this
    {
      forall id :: id in connections ==> IssuedUpTo(id, nextId)
    }

    constructor ()
      ensures Valid() && connections == map[] && nextId == 0
    {
      connections := map[];
      nextId := 0;
    }

    /**
     * Bumps the counter by one and registers "<name>-<counter>" with an empty channel;
     * the id is new, and every other entry is unchanged.
     */
    method Register(name: string) returns (id: string)
      requires Valid()
      modifies this
      ensures Valid()
      ensures nextId == old(nextId) + 1
      ensures id == ConnectionId(name, nextId)
      ensures AfterLast(id, '-') == NatToDecimal(nextId)
      ensures id !in old(connections)
      ensures connections == old(connections)[id := []]
    {
      nextId := nextId + 1;
      id := ConnectionId(name, nextId);
      CounterSuffix(name, nextId);
      DecimalRoundTrip(nextId);
      assert '-' in id by {
        assert id[|name|] == '-';
      }
      assert id !in connections;
      connections := connections[id := []];
    }

    /** Delivers to a registered connection; an unknown id gives "Connection not found". */
    method Send(id: string, message: string) returns (r: Outcome<string>)
      requires Valid()
      modifies this
      ensures Valid() && nextId == old(nextId)
      ensures id !in old(connections) ==> r == Fail("Connection not found") && connections == old(connections)
      ensures id in old(connections) ==>
        r == Pass && connections == old(connections)[id := old(connections)[id] + [message]]
    {
      if id in connections {
        connections := connections[id := connections[id] + [message]];
        r := Pass;
      } else {
        r := Fail("Connection not found");
      }
    }

    /** Removes exactly that id; an unknown id is a silent no-op. */
    method Disconnect(id: string)
      requires Valid()
      modifies this
      ensures Valid() && nextId == old(nextId)
      ensures connections == old(connections) - {id}
      ensures id !in old(connections) ==> connections == old(connections)
    {
      connections := connections - {id};
    }
  }

  /** A client of the specifications: after a disconnect, sending to that id fails. */
  method SendAfterDisconnect(bridge: MCPBridge, name: string, message: string) returns (r: Outcome<string>)
    requires bridge.Valid()
    modifies bridge
    ensures r == Fail("Connection not found")
  {
    var id := bridge.Register(name);
    var first := bridge.Send(id, message);
    assert first == Pass;
    bridge.Disconnect(id);
    r := bridge.Send(id, message);
  }
}
