/**
 * The older lobby server: the same seats, join guard and countdown, but `leave` names a seat index and a
 * name, a leave during the countdown also zeroes the seconds, and `disconnect` frees seats without
 * touching the countdown. The class Lobby performs these steps in place.
 */
module LegacyLobby {
  import opened Wrappers
  import GameRules
  import opened LobbyState
  import LobbyHandler

  /** `join`: the countdown starts when every seat is non-null and the game has not started. */
  function JoinStep(v: LobbyView, sid: GameRules.SocketId, name: string, index: int): LobbyView {
    match Joined(v.slots, index, sid, name)
    case None => v
    case Some(s) =>
      var log := v.log + [Update(s)];
      if !v.started && AllOccupied(s)
      then v.(slots := s, started := true, timer := true, seconds := CountdownStart,
              log := log + [Countdown(CountdownStart)])
      else v.(slots := s, log := log)
  }

  /**
   * The guard of `leave`, `slots[index]?.name === name`, where a message without a name carries None. An
   * empty seat, or an index outside the seats, reads `undefined`, so it passes exactly when the name is
   * missing.
   */
  predicate LeaveMatches(slots: Slots, name: Option<string>, index: int) {
    if 0 <= index < |slots| && slots[index].Some? then name == Some(slots[index].value.name)
    else name.None?
  }

  /**
   * `leave`: when the guard passes, null seat `index` (the seats are unchanged when it lies outside them),
   * broadcast, and cancel a running countdown with its seconds set to 0.
   */
  function LeaveStep(v: LobbyView, name: Option<string>, index: int): LobbyView {
    if LeaveMatches(v.slots, name, index) then
      var s := if 0 <= index < |v.slots| then v.slots[index := None] else v.slots;
      var u := v.(slots := s, log := v.log + [Update(s)]);
      if v.started && v.timer
      then u.(timer := false, seconds := 0, started := false, log := u.log + [Cancel])
      else u
    else v
  }

  /** `disconnect`: free sid's seats and broadcast; the countdown is left running. */
  function DisconnectStep(v: LobbyView, sid: GameRules.SocketId): LobbyView {
    if !Holds(v.slots, sid) then v
    else
      var s := Released(v.slots, sid);
      v.(slots := s, log := v.log + [Update(s)])
  }

  /**
   * Four seats with distinct names; a running countdown belongs to a started lobby and has 1 to 5 seconds
   * left; the game begins at most once and the lobby then stays started with no countdown. Unlike the
   * newer lobby, a running countdown says nothing about the seats.
   */
  ghost predicate LegacyValid(v: LobbyView) {
    |v.slots| == MaxPlayers && UniqueNames(v.slots) &&
    (v.timer ==> v.started && 1 <= v.seconds <= CountdownStart) &&
    LobbyHandler.Begins(v.log) <= 1 && (LobbyHandler.Begins(v.log) == 1 ==> v.started && !v.timer)
  }

  lemma JoinValid(v: LobbyView, sid: GameRules.SocketId, name: string, index: int)
    requires LegacyValid(v)
    ensures LegacyValid(JoinStep(v, sid, name, index))
  {
    var j := Joined(v.slots, index, sid, name);
    if j.Some? {
      var s := j.value;
      JoinEffect(v.slots, index, sid, name);
      LobbyHandler.BeginsAppend(v.log, Update(s));
      LobbyHandler.BeginsAppend(v.log + [Update(s)], Countdown(CountdownStart));
    }
  }

  lemma TickValid(v: LobbyView)
    requires LegacyValid(v) && v.timer
    ensures LegacyValid(CountdownTick(v))
  {
    LobbyHandler.BeginsAppend(v.log, if v.seconds > 1 then Countdown(v.seconds - 1) else Begin);
  }

  lemma LeaveValid(v: LobbyView, name: Option<string>, index: int)
    requires LegacyValid(v)
    ensures LegacyValid(LeaveStep(v, name, index))
  {
    if LeaveMatches(v.slots, name, index) {
      var s := if 0 <= index < |v.slots| then v.slots[index := None] else v.slots;
      if 0 <= index < |v.slots| {
        ClearKeepsUnique(v.slots, index);
      }
      LobbyHandler.BeginsAppend(v.log, Update(s));
      LobbyHandler.BeginsAppend(v.log + [Update(s)], Cancel);
      var u := v.(slots := s, log := v.log + [Update(s)]);
      if v.started && v.timer {
        assert LeaveStep(v, name, index) == u.(timer := false, seconds := 0, started := false, log := u.log + [Cancel]);
      } else {
        assert LeaveStep(v, name, index) == u;
      }
    }
  }

  lemma DisconnectValid(v: LobbyView, sid: GameRules.SocketId)
    requires LegacyValid(v)
    ensures LegacyValid(DisconnectStep(v, sid))
  {
    if Holds(v.slots, sid) {
      ReleaseEffect(v.slots, sid);
      LobbyHandler.BeginsAppend(v.log, Update(Released(v.slots, sid)));
    }
  }

  /** On four seats the older join does exactly what the newer one does. */
  lemma JoinAgrees(v: LobbyView, sid: GameRules.SocketId, name: string, index: int)
    requires |v.slots| == MaxPlayers
    ensures JoinStep(v, sid, name, index) == LobbyHandler.JoinStep(v, sid, name, index)
  {
    if Joined(v.slots, index, sid, name).Some? {
      JoinFillsAll(v.slots, index, sid, name);
    }
  }

  /**
   * A leave acts exactly when seat `index` carries `name`, or when the name is missing and the seat is
   * empty or outside the seats. It then frees that seat and no other, broadcasts, and during the countdown
   * cancels it with the seconds set to 0. A named leave frees a seat that was taken.
   */
  lemma LeaveEffect(v: LobbyView, name: Option<string>, index: int)
    requires LegacyValid(v)
    ensures var w := LeaveStep(v, name, index);
      w != v <==> (if 0 <= index < |v.slots| && v.slots[index].Some?
                   then name == Some(v.slots[index].value.name) else name.None?)
    ensures var w := LeaveStep(v, name, index);
      w != v ==> (|w.slots| == |v.slots| && (0 <= index < |v.slots| ==> w.slots[index].None?) &&
                  (forall k :: 0 <= k < |v.slots| && k != index ==> w.slots[k] == v.slots[k]) &&
                  w.log[..|v.log| + 1] == v.log + [Update(w.slots)])
    ensures var w := LeaveStep(v, name, index);
      w != v && name.Some? ==> 0 <= index < |v.slots| && v.slots[index].Some? && w.slots[index].None?
    ensures var w := LeaveStep(v, name, index);
      w != v && v.timer ==> !w.timer && !w.started && w.seconds == 0 && w.log == v.log + [Update(w.slots), Cancel]
    ensures var w := LeaveStep(v, name, index);
      w != v && !v.timer ==> w.timer == v.timer && w.started == v.started && w.seconds == v.seconds &&
                             w.log == v.log + [Update(w.slots)]
  {
  }

  /**
   * A leave without a name for an index outside the seats passes the guard: during the countdown it
   * cancels the countdown although no seat was freed.
   */
  lemma NamelessLeaveCancels(v: LobbyView, index: int)
    requires LegacyValid(v) && v.timer && !(0 <= index < |v.slots|)
    ensures var w := LeaveStep(v, None, index);
      w.slots == v.slots && !w.timer && !w.started && w.seconds == 0 && w.log == v.log + [Update(v.slots), Cancel]
  {
  }

  /**
   * A disconnect during the countdown leaves it running with a seat empty, and the game then begins
   * short-handed; the newer lobby cancels in the same situation.
   */
  lemma DisconnectKeepsCountdown(v: LobbyView, sid: GameRules.SocketId)
    requires LegacyValid(v) && v.timer && Holds(v.slots, sid)
    ensures var w := DisconnectStep(v, sid);
      w.timer && w.seconds == v.seconds && w.started && !AllOccupied(w.slots) &&
      Ticks(w, w.seconds as nat).log == w.log + Remaining(w.seconds) &&
      !AllOccupied(Ticks(w, w.seconds as nat).slots)
    ensures !LobbyHandler.DisconnectStep(v, sid).timer
    ensures LobbyHandler.DisconnectStep(v, sid).slots == DisconnectStep(v, sid).slots
  {
    var s := Released(v.slots, sid);
    ReleaseEffect(v.slots, sid);
    OccupantsFull(s);
    CountdownFinishes(DisconnectStep(v, sid));
  }

  /** The older lobby's module-level variables, updated in place by its handlers and its interval. */
  class Lobby {
    var slots: Slots
    var started: bool
    var timer: bool
    var seconds: int
    var log: seq<Event>

    function View(): LobbyView
      reads this
    {
      LobbyView(slots, started, timer, seconds, log)
    }

    ghost predicate Valid()
      reads this
    {
      LegacyValid(View())
    }

    constructor ()
      ensures View() == Start && Valid()
    {
      slots := Empty;
      started := false;
      timer := false;
      seconds := 0;
      log := [];
    }

    /** `join` from socket sid. */
    method Join(sid: GameRules.SocketId, name: string, index: int)
      requires Valid()
      modifies this
      ensures Valid() && View() == JoinStep(old(View()), sid, name, index)
    {
      ghost var v0 := View();
      if 0 <= index < |slots| && slots[index].None? && !NameTaken(slots, name) {
        slots := slots[index := Some(NewSeat(sid, name))];
        log := log + [Update(slots)];
        if !started && AllOccupied(slots) {
          started := true;
          seconds := CountdownStart;
          log := log + [Countdown(seconds)];
          timer := true;
        }
      }
      JoinValid(v0, sid, name, index);
    }

    /** One second of the countdown interval. */
    method Tick()
      requires Valid() && timer
      modifies this
      ensures Valid() && View() == CountdownTick(old(View()))
    {
      ghost var v0 := View();
      seconds := seconds - 1;
      if seconds > 0 {
        log := log + [Countdown(seconds)];
      } else {
        timer := false;
        log := log + [Begin];
      }
      assert View() == CountdownTick(v0);
      TickValid(v0);
    }

    /** `leave` naming seat `index` and `name` (None when the message carries no name). */
    method Leave(name: Option<string>, index: int)
      requires Valid()
      modifies this
      ensures Valid() && View() == LeaveStep(old(View()), name, index)
    {
      ghost var v0 := View();
      var inRange := 0 <= index < |slots|;
      var seated := if inRange && slots[index].Some? then Some(slots[index].value.name) else None;
      assert seated == name <==> LeaveMatches(v0.slots, name, index);
      if seated == name {
        var s := if inRange then slots[index := None] else slots;
        slots := s;
        log := log + [Update(s)];
        if started && timer {
          timer := false;
          seconds := 0;
          started := false;
          log := log + [Cancel];
        }
      }
      LeaveValid(v0, name, index);
    }

    /** `disconnect` of socket sid. */
    method Disconnect(sid: GameRules.SocketId)
      requires Valid()
      modifies this
      ensures Valid() && View() == DisconnectStep(old(View()), sid)
    {
      ghost var v0 := View();
      var s, changed := ReleaseSeats(slots, sid);
      slots := s;
      if changed {
        log := log + [Update(slots)];
      }
      DisconnectValid(v0, sid);
    }
  }
}
