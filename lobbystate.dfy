/**
 * What the two lobbies share: four nullable seats, the join guard ("seat empty and name unused"), release
 * by socket id, the events broadcast to every client, and the one-second countdown tick, which both
 * lobbies implement with the same code.
 *
 * A JavaScript array read past its end yields `undefined` and written past its end grows; `filter` and
 * `some` skip the holes such a write leaves. The seat list is modelled as `seq<Option<Seat>>` where a hole
 * reads as `None`, which `filter` and `some` treat exactly as they treat `null`.
 */
module LobbyState {
  import opened Wrappers
  import GameRules

  /** `maxPlayers`. */
  const MaxPlayers: nat := 4

  /** The seconds a countdown starts from. */
  const CountdownStart: int := 5

  /** A seat holder; the random display colour is not modelled. */
  datatype Seat = Seat(id: GameRules.SocketId, name: string, ready: bool, score: int)

  type Slots = seq<Option<Seat>>

  /** `Array(maxPlayers).fill(null)`. */
  const Empty: Slots := [None, None, None, None]

  /** What the lobby broadcasts: the seats, a countdown second, a cancelled countdown, the game start. */
  datatype Event = Update(slots: Slots) | Countdown(seconds: int) | Cancel | Begin

  /**
   * The lobby's module-level state: `slots`, `gameStarted`, whether `countdownTimer` holds a registered
   * interval, `countdownSeconds`, and every event broadcast so far.
   */
  datatype LobbyView = LobbyView(slots: Slots, started: bool, timer: bool, seconds: int, log: seq<Event>)

  const Start: LobbyView := LobbyView(Empty, false, false, 0, [])

  // ----- seats -----

  /** `slots.some((j) => j?.name === name)`. */
  predicate NameTaken(slots: Slots, name: string) {
    exists k :: 0 <= k < |slots| && slots[k].Some? && slots[k].value.name == name
  }

  /** Some seat is held by socket sid: the `changed` flag of the release. */
  predicate Holds(slots: Slots, sid: GameRules.SocketId) {
    exists k :: 0 <= k < |slots| && slots[k].Some? && slots[k].value.id == sid
  }

  predicate AllOccupied(slots: Slots) {
    forall k :: 0 <= k < |slots| ==> slots[k].Some?
  }

  /** No two occupied seats carry the same name. */
  predicate UniqueNames(slots: Slots) {
    forall i, j :: (0 <= i < |slots| && 0 <= j < |slots| && slots[i].Some? && slots[j].Some? &&
                    slots[i].value.name == slots[j].value.name) ==> i == j
  }

  /** `slots.filter((s) => s !== null).length`. */
  function Occupants(slots: Slots): nat {
    if slots == [] then 0
    else Occupants(slots[..|slots| - 1]) + (if slots[|slots| - 1].Some? then 1 else 0)
  }

  /** The seat a fresh join puts in place. */
  function NewSeat(sid: GameRules.SocketId, name: string): Seat {
    Seat(sid, name, false, 0)
  }

  /** Join with the seat index checked against the four seats: None when the guard refuses. */
  function Joined(slots: Slots, index: int, sid: GameRules.SocketId, name: string): Option<Slots> {
    if 0 <= index < |slots| && slots[index].None? && !NameTaken(slots, name)
    then Some(slots[index := Some(NewSeat(sid, name))])
    else None
  }

  /** The `slots.map` callback of a release: the seat held by sid becomes null. */
  function Vacate(p: Option<Seat>, sid: GameRules.SocketId): Option<Seat> {
    if p.Some? && p.value.id == sid then None else p
  }

  function Released(slots: Slots, sid: GameRules.SocketId): Slots {
    seq(|slots|, k requires 0 <= k < |slots| => Vacate(slots[k], sid))
  }

  /** Every seat is occupied exactly when the non-null count is the length. */
  lemma {:induction false} OccupantsFull(slots: Slots)
    ensures Occupants(slots) <= |slots|
    ensures Occupants(slots) == |slots| <==> AllOccupied(slots)
  {
    if slots != [] {
      var init := slots[..|slots| - 1];
      OccupantsFull(init);
      if AllOccupied(slots) {
        assert AllOccupied(init) by {
          forall k | 0 <= k < |init| ensures init[k].Some? {
            assert init[k] == slots[k];
          }
        }
      }
      if Occupants(slots) == |slots| {
        assert slots[|slots| - 1].Some?;
        forall k | 0 <= k < |slots| ensures slots[k].Some? {
          if k < |init| {
            assert init[k] == slots[k];
          }
        }
      }
    }
  }

  /** A successful join fills exactly the chosen seat, with a fresh seat, and keeps names unique. */
  lemma JoinEffect(slots: Slots, index: int, sid: GameRules.SocketId, name: string)
    requires UniqueNames(slots)
    ensures Joined(slots, index, sid, name).Some? <==>
      (0 <= index < |slots| && slots[index].None? && !NameTaken(slots, name))
    ensures Joined(slots, index, sid, name).Some? ==>
      var s := Joined(slots, index, sid, name).value;
      |s| == |slots| && s[index] == Some(Seat(sid, name, false, 0)) &&
      (forall k :: 0 <= k < |slots| && k != index ==> s[k] == slots[k]) &&
      UniqueNames(s)
  {
  }

  /** A release frees every seat of sid, touches no other seat, and leaves sid holding nothing. */
  lemma ReleaseEffect(slots: Slots, sid: GameRules.SocketId)
    ensures |Released(slots, sid)| == |slots|
    ensures forall k :: 0 <= k < |slots| ==>
      Released(slots, sid)[k] == if slots[k].Some? && slots[k].value.id == sid then None else slots[k]
    ensures !Holds(Released(slots, sid), sid)
    ensures UniqueNames(slots) ==> UniqueNames(Released(slots, sid))
    ensures Occupants(Released(slots, sid)) < |slots| <==> (Holds(slots, sid) || !AllOccupied(slots))
  {
    var r := Released(slots, sid);
    OccupantsFull(r);
    OccupantsFull(slots);
    if Holds(slots, sid) {
      var k :| 0 <= k < |slots| && slots[k].Some? && slots[k].value.id == sid;
      assert r[k].None?;
    }
    if !AllOccupied(slots) {
      var k :| 0 <= k < |slots| && slots[k].None?;
      assert r[k].None?;
    }
  }

  /** Emptying one seat keeps the names unique. */
  lemma ClearKeepsUnique(slots: Slots, index: int)
    requires UniqueNames(slots) && 0 <= index < |slots|
    ensures UniqueNames(slots[index := None])
  {
    var s := slots[index := None];
    forall i, j | 0 <= i < |s| && 0 <= j < |s| && s[i].Some? && s[j].Some? && s[i].value.name == s[j].value.name
      ensures i == j
    {
      assert s[i] == slots[i] && s[j] == slots[j];
    }
  }

  /** Releasing a socket that holds no seat changes nothing; releasing twice is releasing once. */
  lemma ReleaseStable(slots: Slots, sid: GameRules.SocketId)
    ensures !Holds(slots, sid) ==> Released(slots, sid) == slots
    ensures Released(Released(slots, sid), sid) == Released(slots, sid)
  {
    if !Holds(slots, sid) {
      assert forall k :: 0 <= k < |slots| ==> Released(slots, sid)[k] == slots[k];
    }
  }

  /** Releasing the joining socket forgets the join: the seats are as if it had only released. */
  lemma ReleaseUndoesJoin(slots: Slots, index: int, sid: GameRules.SocketId, name: string)
    requires Joined(slots, index, sid, name).Some?
    ensures Released(Joined(slots, index, sid, name).value, sid) == Released(slots, sid)
  {
    var s := Joined(slots, index, sid, name).value;
    assert forall k :: 0 <= k < |slots| ==> Released(s, sid)[k] == Released(slots, sid)[k];
  }

  /** On four seats, the non-null count reaching four and every seat being taken are the same test. */
  lemma JoinFillsAll(slots: Slots, index: int, sid: GameRules.SocketId, name: string)
    requires |slots| == MaxPlayers && Joined(slots, index, sid, name).Some?
    ensures var s := Joined(slots, index, sid, name).value;
      |s| == MaxPlayers && (Occupants(s) == MaxPlayers <==> AllOccupied(s))
  {
    OccupantsFull(Joined(slots, index, sid, name).value);
  }

  /** The `slots.map` of a release, with its `changed` flag. */
  method ReleaseSeats(slots: Slots, sid: GameRules.SocketId) returns (s: Slots, changed: bool)
    ensures s == Released(slots, sid) && (changed <==> Holds(slots, sid))
    ensures !changed ==> s == slots
  {
    s := [];
    changed := false;
    var k := 0;
    while k < |slots|
      invariant 0 <= k <= |slots| && |s| == k
      invariant forall i :: 0 <= i < k ==> s[i] == Vacate(slots[i], sid)
      invariant changed <==> Holds(slots[..k], sid)
    {
      assert slots[..k + 1][..k] == slots[..k];
      if slots[k].Some? && slots[k].value.id == sid {
        changed := true;
        s := s + [None];
        assert slots[..k + 1][k] == slots[k];
      } else {
        s := s + [slots[k]];
        assert Holds(slots[..k + 1], sid) ==> Holds(slots[..k], sid) by {
          if Holds(slots[..k + 1], sid) {
            var i :| 0 <= i < k + 1 && slots[..k + 1][i].Some? && slots[..k + 1][i].value.id == sid;
            assert i < k && slots[..k][i] == slots[i];
          }
        }
      }
      k := k + 1;
    }
    assert slots[..k] == slots;
    ReleaseStable(slots, sid);
  }

  // ----- the shared countdown tick -----

  /** One second of either lobby's countdown interval. */
  function CountdownTick(v: LobbyView): (r: LobbyView)
    requires v.timer
    ensures r.slots == v.slots && r.started == v.started && r.seconds == v.seconds - 1
    ensures r.timer <==> v.seconds > 1
    ensures r.log == v.log + [if v.seconds > 1 then Countdown(v.seconds - 1) else Begin]
  {
    var s := v.seconds - 1;
    if s > 0 then v.(seconds := s, log := v.log + [Countdown(s)])
    else v.(seconds := s, timer := false, log := v.log + [Begin])
  }

  /** n seconds of the countdown, or fewer if it ends first. */
  function Ticks(v: LobbyView, n: nat): LobbyView
    decreases n
  {
    if n == 0 || !v.timer then v else Ticks(CountdownTick(v), n - 1)
  }

  /** What a countdown running at s seconds still broadcasts: s - 1 down to 1, then the start. */
  function Remaining(s: int): seq<Event>
    decreases s
  {
    if s <= 1 then [Begin] else [Countdown(s - 1)] + Remaining(s - 1)
  }

  /** A running countdown broadcasts every remaining second and starts the game, seats untouched. */
  lemma {:induction false} CountdownFinishes(v: LobbyView)
    requires v.timer && v.seconds >= 1
    ensures var w := Ticks(v, v.seconds as nat);
      !w.timer && w.seconds == 0 && w.slots == v.slots && w.started == v.started &&
      w.log == v.log + Remaining(v.seconds)
    decreases v.seconds
  {
    var u := CountdownTick(v);
    if v.seconds > 1 {
      CountdownFinishes(u);
      assert Ticks(v, v.seconds as nat) == Ticks(u, u.seconds as nat);
      assert v.log + Remaining(v.seconds) == u.log + Remaining(u.seconds);
    } else {
      assert Ticks(u, 0) == u;
    }
  }

  // ----- the join as written -----

  /**
   * `lobby:join` exactly as written: an index at or past the end reads `undefined`, passes the guard,
   * and the write grows the array (the holes it leaves read as `None`).
   */
  function JoinAsWritten(slots: Slots, index: nat, sid: GameRules.SocketId, name: string): (r: Option<Slots>)
    ensures r.Some? ==> |r.value| == if index < |slots| then |slots| else index + 1
  {
    if index < |slots| then Joined(slots, index, sid, name)
    else if NameTaken(slots, name) then None
    else Some(slots + seq(index - |slots|, _ => None) + [Some(NewSeat(sid, name))])
  }

  /** Three seated players and a fourth joining at index 4: four non-null entries, seat 3 still empty. */
  lemma JoinPastEndStartsEarly()
    ensures var slots := [Some(NewSeat("a", "A")), Some(NewSeat("b", "B")), Some(NewSeat("c", "C")), None];
      var r := JoinAsWritten(slots, 4, "d", "D");
      r.Some? && Occupants(r.value) == MaxPlayers && r.value[3].None? && !AllOccupied(r.value)
  {
    var slots := [Some(NewSeat("a", "A")), Some(NewSeat("b", "B")), Some(NewSeat("c", "C")), None];
    assert !NameTaken(slots, "D") by {
      forall k | 0 <= k < |slots| && slots[k].Some? ensures slots[k].value.name != "D" {
        assert slots[k].value.name[0] != 'D';
      }
    }
    var s := JoinAsWritten(slots, 4, "d", "D").value;
    assert s == slots + [Some(NewSeat("d", "D"))];
    assert s[..4] == slots;
    assert slots[..3][..2] == slots[..2];
    assert slots[..2][..1] == slots[..1];
    assert slots[..1][..0] == [];
    assert Occupants(slots[..1]) == 1;
    assert Occupants(slots[..2]) == 2;
    assert Occupants(slots[..3]) == 3;
    assert Occupants(slots) == 3;
  }
}
