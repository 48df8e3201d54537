/**
  The service side of the address-scheduling protocol: the address store of
  src/ats/gnunet-service-ats_addresses.c and the handlers of
  src/ats/gnunet-service-ats_scheduling.c.
 */
module AddressService {
  import opened Common
  import opened SchedulingClient

  /** Addresses are found by peer and session number. */
  datatype Key = Key(peer: Peer, slot: nat)

  type Connection = nat

  /** The one scheduling client and the addresses it announced, with their properties. */
  datatype Service = Service(client: Option<Connection>, addresses: map<Key, nat>)

  function KeyOf(m: ToService): Key
    requires !m.Start?
  {
    Key(m.peer, m.slot)
  }

  /** Whether a handler runs into one of the source's GNUNET_break (0) branches. */
  predicate Breaks(addresses: map<Key, nat>, m: ToService)
    requires !m.Start?
  {
    if m.Add? then KeyOf(m) in addresses else KeyOf(m) !in addresses
  }

  /** GAS_addresses_add, GAS_addresses_update and GAS_addresses_destroy. */
  function Handle(addresses: map<Key, nat>, m: ToService): map<Key, nat>
    requires !m.Start?
  {
    if Breaks(addresses, m) then addresses
    else if m.Destroyed? then addresses - {KeyOf(m)}
    else addresses[KeyOf(m) := m.properties]
  }

  /** The release is sent whether or not there was an address to destroy. */
  function Replies(m: ToService): seq<ToClient> {
    if m.Destroyed? then [Release(m.peer, m.slot)] else []
  }

  /** The properties of one address are set, or nothing changes. */
  ghost predicate Changed(before: map<Key, nat>, after: map<Key, nat>, peer: Peer, slot: nat, properties: Option<nat>) {
    after == match properties case None => before case Some(p) => before[Key(peer, slot) := p]
  }

  class AddressStore {
    var client: Option<Connection>
    var addresses: map<Key, nat>
    var outbox: seq<ToClient>

    constructor ()
      ensures client == None && addresses == map[] && outbox == []
    {
      client, addresses, outbox := None, map[], [];
    }

    /** GAS_scheduling_add_client */
    method AddClient(c: Connection) returns (ok: bool)
      modifies this`client
      ensures ok == old(client).None?
      ensures client == if ok then Some(c) else old(client)
    {
      ok := client.None?;
      if ok {
        client := Some(c);
      }
    }

    /** GAS_scheduling_remove_client */
    method RemoveClient(c: Connection)
      modifies this`client, this`addresses
      ensures client == if old(client) == Some(c) then None else old(client)
      ensures addresses == if old(client) == Some(c) then map[] else old(addresses)
    {
      if client != Some(c) {
        return;
      }
      DestroyAll();
      client := None;
    }

    /** GAS_addresses_destroy_all: one address after the other, in any order. */
    method DestroyAll()
      modifies this`addresses
      ensures addresses == map[]
    {
      while addresses != map[]
        decreases |addresses|
      {
        var k :| k in addresses;
        addresses := addresses - {k};
      }
    }

    /**
      GAS_handle_address_add, GAS_handle_address_update and GAS_handle_address_destroyed.  An UPDATE
      for an address that the solver does not know (`solved` is false) is refused.
     */
    method HandleMessage(m: ToService, solved: bool) returns (broke: bool)
      requires !m.Start?
      modifies this`addresses, this`outbox
      ensures broke == (Breaks(old(addresses), m) || (m.Update? && !solved))
      ensures addresses == if m.Update? && !solved then old(addresses) else Handle(old(addresses), m)
      ensures outbox == old(outbox) + Replies(m)
      ensures m.Destroyed? ==> outbox == old(outbox) + [Release(m.peer, m.slot)]
      ensures m.Add? || m.Update? ==>
                Changed(old(addresses), addresses, m.peer, m.slot, if broke then None else Some(m.properties))
      ensures m.Destroyed? ==> addresses == old(addresses) - {Key(m.peer, m.slot)}
      ensures m.Add? ==> (broke <==> Key(m.peer, m.slot) in old(addresses))
      ensures m.Update? ==> (broke <==> Key(m.peer, m.slot) !in old(addresses) || !solved)
      ensures m.Destroyed? ==> (broke <==> Key(m.peer, m.slot) !in old(addresses))
    {
      var known := KeyOf(m) in addresses;
      match m
      case Add(_, _, properties) =>
        broke := known;
        if !known {
          addresses := addresses[KeyOf(m) := properties];
        }
      case Update(_, _, properties) =>
        broke := !known;
        if known {
          if solved {
            addresses := addresses[KeyOf(m) := properties];
          } else {
            broke := true;
          }
        }
      case Destroyed(peer, slot) =>
        broke := !known;
        if known {
          addresses := addresses - {KeyOf(m)};
        }
        outbox := outbox + [Release(peer, slot)];
    }
  }
}
