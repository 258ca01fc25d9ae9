/** The server class of src/libserver/network/Server.cpp as far as throttling goes, proved against ThrottleModel. */
module Server {
  import opened Wrappers
  import opened ThrottleModel
  import Model = ThrottleModel

  class Server {
    var addressStates: map<Address, AddressState>
    var objects: map<ClientId, Client>
    var clients: set<ClientId>
    var nextClientId: ClientId
    ghost var history: map<Address, seq<int>>

    ghost function Now(): State
      reads this
    {
      State(addressStates, objects, clients, nextClientId, history)
    }

    constructor ()
      ensures Now() == Init()
    {
      addressStates, objects, clients, nextClientId, history := map[], map[], {}, 0, map[];
    }

    method IsConnectionThrottled(address: Address, now: int) returns (throttled: bool)
      modifies this`addressStates
      ensures
        var (st, refused) := CheckThrottle(StateOf(old(Now()), address), now);
        addressStates == old(addressStates)[address := st] && throttled == refused
    {
      if address !in addressStates {
        addressStates := addressStates[address := AddressState(0, [])];
      }
      var state := addressStates[address];
      if state.active >= MAX_CONNECTIONS {
        return true;
      }
      while state.stamps != []
        invariant state.active == StateOf(old(Now()), address).active
        invariant Expire(state.stamps, now) == Expire(StateOf(old(Now()), address).stamps, now)
        decreases |state.stamps|
      {
        if now - state.stamps[0] < RATE_WINDOW {
          break;
        }
        state := state.(stamps := state.stamps[1..]);
      }
      assert state.stamps == Expire(state.stamps, now);
      addressStates := addressStates[address := state];
      if |state.stamps| >= MAX_RATE {
        return true;
      }
      addressStates := addressStates[address := AddressState(state.active + 1, state.stamps + [now])];
      throttled := false;
    }

    /** One turn of the accept loop. */
    method Accept(address: Address, now: int) returns (client: Option<ClientId>)
      modifies this
      ensures (Now(), client) == Model.Accept(old(Now()), address, now)
    {
      var throttled := IsConnectionThrottled(address, now);
      if throttled {
        return None;
      }
      var id := nextClientId;
      nextClientId := nextClientId + 1;
      objects, clients := objects[id := Client(address, true)], clients + {id};
      history := history[address := HistoryOf(old(Now()), address) + [now]];
      client := Some(id);
    }

    method OnThrottleDisconnect(address: Address)
      modifies this`addressStates
      ensures addressStates == ThrottleDisconnect(old(addressStates), address)
    {
      if address !in addressStates {
        return;
      }
      var state := addressStates[address];
      if state.active > 0 {
        state := state.(active := state.active - 1);
      }
      addressStates := addressStates[address := state];
      if state.active == 0 && state.stamps == [] {
        addressStates := addressStates - {address};
      }
    }

    /** The end of a client: only the first call gets past the flag. */
    method EndClient(id: ClientId)
      requires id in objects
      modifies this
      ensures Now() == End(old(Now()), id)
    {
      var wasRunning := objects[id].running;
      objects := objects[id := objects[id].(running := false)];
      if !wasRunning {
        return;
      }
      OnThrottleDisconnect(objects[id].address);
      clients := clients - {id};
    }
  }
}
