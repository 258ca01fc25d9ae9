/**
 Connection throttling per address (src/libserver/network/Server.cpp) as functions on values, and what it
 comes to over whole runs. Time points are integers, in nanoseconds; `history` records, for the statements
 below, when connections of an address were accepted.
 */
module ThrottleModel {
  import opened Wrappers

  type Address = nat
  type ClientId = nat

  const MAX_CONNECTIONS: nat := 10
  const MAX_RATE: nat := 10
  const RATE_WINDOW: nat := 30_000_000_000

  datatype AddressState = AddressState(active: nat, stamps: seq<int>)

  /** A client object outlives its registration; `running` is its flag. */
  datatype Client = Client(address: Address, running: bool)

  datatype State = State(
    states: map<Address, AddressState>, objects: map<ClientId, Client>, registered: set<ClientId>, nextId: ClientId,
    history: map<Address, seq<int>>)

  function StateOf(s: State, a: Address): AddressState {
    if a in s.states then s.states[a] else AddressState(0, [])
  }

  function HistoryOf(s: State, a: Address): seq<int> {
    if a in s.history then s.history[a] else []
  }

  /** Drops the leading timestamps that the window has left behind. */
  function Expire(stamps: seq<int>, now: int): seq<int> {
    if stamps == [] || now - stamps[0] < RATE_WINDOW then stamps else Expire(stamps[1..], now)
  }

  /** The state of the address afterwards and whether the connection is throttled. */
  function CheckThrottle(st: AddressState, now: int): (AddressState, bool) {
    if st.active >= MAX_CONNECTIONS then (st, true)
    else
      var stamps := Expire(st.stamps, now);
      if |stamps| >= MAX_RATE then (st.(stamps := stamps), true)
      else (AddressState(st.active + 1, stamps + [now]), false)
  }

  function Accept(s: State, a: Address, now: int): (State, Option<ClientId>) {
    var (st, throttled) := CheckThrottle(StateOf(s, a), now);
    var checked := s.(states := s.states[a := st]);
    if throttled then (checked, None)
    else
      (checked.(
         objects := s.objects[s.nextId := Client(a, true)],
         registered := s.registered + {s.nextId},
         nextId := s.nextId + 1,
         history := s.history[a := HistoryOf(s, a) + [now]]),
       Some(s.nextId))
  }

  /** The counter goes down, and an address with nothing left to remember is forgotten. */
  function ThrottleDisconnect(states: map<Address, AddressState>, a: Address): map<Address, AddressState> {
    if a !in states then states
    else
      var st := states[a].(active := if states[a].active > 0 then states[a].active - 1 else 0);
      if st.active == 0 && st.stamps == [] then states - {a} else states[a := st]
  }

  function End(s: State, id: ClientId): State {
    if id !in s.objects || !s.objects[id].running then s
    else
      s.(objects := s.objects[id := s.objects[id].(running := false)],
         registered := s.registered - {id},
         states := ThrottleDisconnect(s.states, s.objects[id].address))
  }

  // ---------------------------------------------------------------------------------------------
  // The invariant.

  ghost function Running(s: State, a: Address): set<ClientId> {
    set id | id in s.objects && s.objects[id].running && s.objects[id].address == a
  }

  ghost predicate Sorted(times: seq<int>, now: int) {
    && (forall i, j | 0 <= i < j < |times| :: times[i] <= times[j])
    && (forall i | 0 <= i < |times| :: times[i] <= now)
  }

  /** The timestamps are the latest accepted connections; those no longer among them are out of the window. */
  ghost predicate Remembered(times: seq<int>, stamps: seq<int>, now: int) {
    && |stamps| <= |times| && |stamps| <= MAX_RATE
    && stamps == times[|times| - |stamps|..]
    && forall i | 0 <= i < |times| - |stamps| :: now - times[i] >= RATE_WINDOW
  }

  /** Any eleven accepted connections of an address span at least the window. */
  ghost predicate Spread(times: seq<int>) {
    forall i | 0 <= i < |times| - MAX_RATE :: times[i + MAX_RATE] - times[i] >= RATE_WINDOW
  }

  ghost predicate TimesInv(times: seq<int>, stamps: seq<int>, now: int) {
    Sorted(times, now) && Remembered(times, stamps, now) && Spread(times)
  }

  ghost predicate AddressInv(s: State, a: Address, now: int) {
    && TimesInv(HistoryOf(s, a), StateOf(s, a).stamps, now)
    && StateOf(s, a).active == |Running(s, a)| <= MAX_CONNECTIONS
  }

  ghost predicate Inv(s: State, now: int) {
    && (forall a :: AddressInv(s, a, now))
    && (forall id | id in s.objects :: id < s.nextId)
    && (forall id :: id in s.registered <==> id in s.objects && s.objects[id].running)
  }

  lemma {:induction false} ExpireIs(times: seq<int>, stamps: seq<int>, now: int)
    requires TimesInv(times, stamps, now)
    ensures
      var rest := Expire(stamps, now);
      TimesInv(times, rest, now) && forall i | 0 <= i < |rest| :: now - rest[i] < RATE_WINDOW
    decreases |stamps|
  {
    if stamps != [] && now - stamps[0] >= RATE_WINDOW {
      assert stamps[1..] == times[|times| - |stamps[1..]|..];
      ExpireIs(times, stamps[1..], now);
    } else if stamps != [] {
      assert forall i | 0 <= i < |stamps| :: stamps[0] <= stamps[i];
    }
  }

  lemma AcceptedTimes(times: seq<int>, stamps: seq<int>, now: int)
    requires TimesInv(times, stamps, now) && |stamps| < MAX_RATE
    ensures TimesInv(times + [now], stamps + [now], now)
  {
  }

  lemma TimePasses(s: State, now: int, later: int)
    requires Inv(s, now) && now <= later
    ensures Inv(s, later)
  {
    forall a
      ensures AddressInv(s, a, later)
    {
      assert AddressInv(s, a, now);
    }
  }

  lemma CheckKeepsTimes(times: seq<int>, st: AddressState, now: int)
    requires TimesInv(times, st.stamps, now)
    ensures
      var (after, throttled) := CheckThrottle(st, now);
      && TimesInv(if throttled then times else times + [now], after.stamps, now)
      && after.active == (if throttled then st.active else st.active + 1)
      && (st.active <= MAX_CONNECTIONS ==> after.active <= MAX_CONNECTIONS)
  {
    ExpireIs(times, st.stamps, now);
    if |Expire(st.stamps, now)| < MAX_RATE {
      AcceptedTimes(times, Expire(st.stamps, now), now);
    }
  }

  lemma OneMoreRuns(s: State, r: State, id: ClientId, a: Address)
    requires id !in s.objects && r.objects == s.objects[id := Client(a, true)]
    ensures |Running(r, a)| == |Running(s, a)| + 1
  {
    assert id !in Running(s, a) && Running(r, a) == Running(s, a) + {id};
  }

  lemma AcceptRuns(s: State, a: Address, now: int)
    requires Inv(s, now)
    ensures
      var (r, id) := Accept(s, a, now);
      |Running(r, a)| == if id.Some? then |Running(s, a)| + 1 else |Running(s, a)|
  {
    var (r, id) := Accept(s, a, now);
    if id.Some? {
      OneMoreRuns(s, r, s.nextId, a);
    } else {
      assert r.objects == s.objects;
    }
  }

  lemma AcceptKeepsAddress(s: State, a: Address, now: int)
    requires Inv(s, now)
    ensures AddressInv(Accept(s, a, now).0, a, now)
  {
    assert AddressInv(s, a, now);
    AcceptRuns(s, a, now);
    CheckKeepsTimes(HistoryOf(s, a), StateOf(s, a), now);
  }

  lemma SameKeepsAddress(s: State, r: State, b: Address, now: int)
    requires AddressInv(s, b, now) && StateOf(r, b) == StateOf(s, b) && HistoryOf(r, b) == HistoryOf(s, b)
    requires Running(r, b) == Running(s, b)
    ensures AddressInv(r, b, now)
  {
  }

  lemma AcceptLeavesOthers(s: State, a: Address, b: Address, now: int)
    requires s.nextId !in s.objects && a != b
    ensures
      var r := Accept(s, a, now).0;
      StateOf(r, b) == StateOf(s, b) && HistoryOf(r, b) == HistoryOf(s, b) && Running(r, b) == Running(s, b)
  {
  }

  lemma AcceptKeepsOthers(s: State, a: Address, b: Address, now: int)
    requires Inv(s, now) && a != b
    ensures AddressInv(Accept(s, a, now).0, b, now)
  {
    AcceptLeavesOthers(s, a, b, now);
    SameKeepsAddress(s, Accept(s, a, now).0, b, now);
  }

  lemma AcceptKeepsInv(s: State, a: Address, now: int)
    requires Inv(s, now)
    ensures Inv(Accept(s, a, now).0, now)
  {
    AcceptKeepsAddress(s, a, now);
    forall b | b != a
      ensures AddressInv(Accept(s, a, now).0, b, now)
    {
      AcceptKeepsOthers(s, a, b, now);
    }
  }

  lemma EndStops(s: State, id: ClientId, now: int)
    requires Inv(s, now) && id in s.objects && s.objects[id].running
    ensures
      var a, r := s.objects[id].address, End(s, id);
      && StateOf(s, a).active > 0 && StateOf(r, a) == StateOf(s, a).(active := StateOf(s, a).active - 1)
      && |Running(r, a)| == |Running(s, a)| - 1
  {
    var a := s.objects[id].address;
    assert AddressInv(s, a, now);
    assert id in Running(s, a) && Running(End(s, id), a) == Running(s, a) - {id};
  }

  lemma EndLeavesOthers(s: State, id: ClientId, b: Address)
    requires id in s.objects && b != s.objects[id].address
    ensures
      var r := End(s, id);
      StateOf(r, b) == StateOf(s, b) && HistoryOf(r, b) == HistoryOf(s, b) && Running(r, b) == Running(s, b)
  {
  }

  lemma EndKeepsOthers(s: State, id: ClientId, b: Address, now: int)
    requires Inv(s, now) && id in s.objects && b != s.objects[id].address
    ensures AddressInv(End(s, id), b, now)
  {
    EndLeavesOthers(s, id, b);
    SameKeepsAddress(s, End(s, id), b, now);
  }

  lemma EndKeepsInv(s: State, id: ClientId, now: int)
    requires Inv(s, now)
    ensures Inv(End(s, id), now)
  {
    if id in s.objects && s.objects[id].running {
      var a := s.objects[id].address;
      EndStops(s, id, now);
      assert AddressInv(s, a, now);
      forall b | b != a
        ensures AddressInv(End(s, id), b, now)
      {
        EndKeepsOthers(s, id, b, now);
      }
    }
  }

  // ---------------------------------------------------------------------------------------------
  // Runs.

  datatype Event = Connect(address: Address) | Disconnect(id: ClientId)

  /** A run is a list of events, each with its time; times do not go back. */
  datatype Timed = Timed(now: int, event: Event)

  function Init(): State {
    State(map[], map[], {}, 0, map[])
  }

  function Step(s: State, t: Timed): State {
    match t.event
    case Connect(a) => Accept(s, a, t.now).0
    case Disconnect(id) => End(s, id)
  }

  function Run(ts: seq<Timed>): State {
    if ts == [] then Init() else Step(Run(ts[..|ts| - 1]), ts[|ts| - 1])
  }

  ghost predicate Chronological(ts: seq<Timed>) {
    forall i, j | 0 <= i < j < |ts| :: ts[i].now <= ts[j].now
  }

  function Clock(ts: seq<Timed>): int {
    if ts == [] then 0 else ts[|ts| - 1].now
  }

  lemma {:induction false} RunKeepsInv(ts: seq<Timed>)
    requires Chronological(ts)
    ensures Inv(Run(ts), Clock(ts))
  {
    if ts == [] {
      InitAnytime(0);
    } else {
      var before, t := ts[..|ts| - 1], ts[|ts| - 1];
      RunKeepsInv(before);
      if before == [] {
        InitAnytime(t.now);
      } else {
        TimePasses(Run(before), Clock(before), t.now);
      }
      match t.event
      case Connect(a) => AcceptKeepsInv(Run(before), a, t.now);
      case Disconnect(id) => EndKeepsInv(Run(before), id, t.now);
    }
  }

  lemma InitAnytime(now: int)
    ensures Inv(Init(), now)
  {
    forall a
      ensures AddressInv(Init(), a, now)
    {
      assert Running(Init(), a) == {};
    }
  }

  // ---------------------------------------------------------------------------------------------
  // What the invariant means.

  /** The accepted connections with times in the half-open window from `t` on. */
  ghost function InWindow(times: seq<int>, t: int): set<nat> {
    set i: nat | 0 <= i < |times| && t <= times[i] < t + RATE_WINDOW
  }

  lemma {:induction false} RangeSize(s: set<nat>, lo: nat, n: nat)
    requires forall i | i in s :: lo <= i < lo + n
    ensures |s| <= n
  {
    if n == 0 {
      assert s == {};
    } else {
      RangeSize(s - {lo + n - 1}, lo, n - 1);
      assert |s| <= |s - {lo + n - 1}| + 1;
    }
  }

  lemma FewInWindow(times: seq<int>, now: int, t: int)
    requires Sorted(times, now) && Spread(times)
    ensures |InWindow(times, t)| <= MAX_RATE
  {
    var s := InWindow(times, t);
    if s != {} {
      var i := Smallest(s);
      forall j | j in s
        ensures i <= j < i + MAX_RATE
      {
        if j >= i + MAX_RATE {
          SpreadFurther(times, now, i, j);
        }
      }
      RangeSize(s, i, MAX_RATE);
    }
  }

  lemma SpreadFurther(times: seq<int>, now: int, i: int, j: int)
    requires Sorted(times, now) && Spread(times)
    requires 0 <= i && i + MAX_RATE <= j < |times|
    ensures times[j] - times[i] >= RATE_WINDOW
  {
    assert times[i + MAX_RATE] - times[i] >= RATE_WINDOW;
    assert i + MAX_RATE == j || times[i + MAX_RATE] <= times[j];
  }

  lemma {:induction false} Smallest(s: set<nat>) returns (r: nat)
    requires s != {}
    ensures r in s && forall j | j in s :: r <= j
    decreases |s|
  {
    var u :| u in s;
    var rest := s - {u};
    r := u;
    if rest != {} {
      var least := Smallest(rest);
      r := if u <= least then u else least;
    }
    forall j | j in s
      ensures r <= j
    {
      assert j != u ==> j in rest;
    }
  }

  /** In every run, every half-open window of 30 seconds holds at most ten accepted connections of an
      address, and the counter of an address is the number of its clients that have not ended, at most ten. */
  lemma ThrottleHolds(ts: seq<Timed>, a: Address, t: int)
    requires Chronological(ts)
    ensures |InWindow(HistoryOf(Run(ts), a), t)| <= MAX_RATE
    ensures StateOf(Run(ts), a).active == |Running(Run(ts), a)| <= MAX_CONNECTIONS
  {
    RunKeepsInv(ts);
    assert AddressInv(Run(ts), a, Clock(ts));
    FewInWindow(HistoryOf(Run(ts), a), Clock(ts), t);
  }

  /** The connections accepted within the last window. */
  ghost function Recent(times: seq<int>, now: int): set<nat> {
    set i: nat | 0 <= i < |times| && now - times[i] < RATE_WINDOW
  }

  ghost function Indices(lo: nat, hi: nat): (r: set<nat>)
    requires lo <= hi
    ensures forall i :: i in r <==> lo <= i < hi
    ensures |r| == hi - lo
    decreases hi - lo
  {
    if lo == hi then {} else Indices(lo, hi - 1) + {hi - 1}
  }

  /** No other connection is refused: one is accepted exactly if fewer than ten of its address are active and
      fewer than ten were accepted within the last window. */
  lemma AcceptedIff(s: State, a: Address, now: int)
    requires Inv(s, now)
    ensures
      Accept(s, a, now).1.Some? <==> |Running(s, a)| < MAX_CONNECTIONS && |Recent(HistoryOf(s, a), now)| < MAX_RATE
  {
    assert AddressInv(s, a, now);
    RecentIs(HistoryOf(s, a), StateOf(s, a).stamps, now);
  }

  lemma RecentIs(times: seq<int>, stamps: seq<int>, now: int)
    requires TimesInv(times, stamps, now)
    ensures |Recent(times, now)| == |Expire(stamps, now)|
  {
    ExpireIs(times, stamps, now);
    LatestAreRecent(times, Expire(stamps, now), now);
  }

  lemma LatestAreRecent(times: seq<int>, rest: seq<int>, now: int)
    requires Remembered(times, rest, now) && forall i | 0 <= i < |rest| :: now - rest[i] < RATE_WINDOW
    ensures |Recent(times, now)| == |rest|
  {
    var first := |times| - |rest|;
    forall i: nat | i < |times|
      ensures now - times[i] < RATE_WINDOW <==> first <= i
    {
      assert first <= i ==> times[i] == rest[i - first];
    }
    assert Recent(times, now) == Indices(first, |times|);
  }

  /** Ending a client twice is ending it once; the first time its address has one active client less. */
  lemma EndsOnce(s: State, id: ClientId, now: int)
    requires Inv(s, now)
    ensures End(End(s, id), id) == End(s, id)
    ensures id in s.registered ==>
      && id !in End(s, id).registered
      && StateOf(End(s, id), s.objects[id].address).active == StateOf(s, s.objects[id].address).active - 1
    ensures id !in s.registered ==> End(s, id) == s
  {
    if id in s.registered {
      var a := s.objects[id].address;
      assert AddressInv(s, a, now) && id in Running(s, a);
    }
  }

  // ---------------------------------------------------------------------------------------------
  // Which addresses are remembered.

  /** The address of a client that ends stays remembered exactly if another client of it has not ended or it has
      timestamps left. */
  lemma StaysRememberedIff(s: State, id: ClientId, now: int)
    requires Inv(s, now) && id in s.registered
    ensures
      var a := s.objects[id].address;
      a in End(s, id).states <==> Running(s, a) != {id} || StateOf(s, a).stamps != []
  {
    var a := s.objects[id].address;
    assert AddressInv(s, a, now) && id in Running(s, a);
    OneAlone(Running(s, a), id);
    Forgets(s, id);
  }

  lemma Forgets(s: State, id: ClientId)
    requires id in s.objects && s.objects[id].running && StateOf(s, s.objects[id].address).active > 0
    ensures
      var a := s.objects[id].address;
      a in End(s, id).states <==> StateOf(s, a).active > 1 || StateOf(s, a).stamps != []
  {
  }

  lemma OneAlone(ids: set<ClientId>, id: ClientId)
    requires id in ids
    ensures |ids| >= 1 && (|ids| > 1 <==> ids != {id})
  {
    assert |ids - {id}| == |ids| - 1;
    if ids - {id} == {} {
      assert ids == {id};
    }
  }

  ghost predicate AllStamped(s: State) {
    forall a | a in s.states :: s.states[a].stamps != []
  }

  lemma StepKeepsStamped(s: State, t: Timed)
    requires AllStamped(s)
    ensures AllStamped(Step(s, t))
    ensures forall a :: a in Step(s, t).states <==> a in s.states || t.event == Connect(a)
  {
  }

  /** Only a connection of an address changes its timestamps, whether it is accepted or not. */
  lemma StampsStay(s: State, t: Timed, a: Address)
    requires AllStamped(s) && t.event != Connect(a)
    ensures StateOf(Step(s, t), a).stamps == StateOf(s, a).stamps
  {
  }

  /** But an accepted connection leaves a timestamp, only the next connection of its address drops it, and every
      connection that is refused for its rate leaves ten: in every run no address is ever forgotten. */
  lemma {:induction false} NeverForgotten(ts: seq<Timed>, a: Address)
    ensures AllStamped(Run(ts))
    ensures a in Run(ts).states <==> exists t :: t in ts && t.event == Connect(a)
  {
    if ts != [] {
      var before, last := ts[..|ts| - 1], ts[|ts| - 1];
      NeverForgotten(before, a);
      StepKeepsStamped(Run(before), last);
      assert ts == before + [last];
      assert forall t :: t in ts <==> t in before || t == last;
    }
  }
}
