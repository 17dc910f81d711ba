/**
 * The lobby of the socket server: `lobby:join`, the countdown interval, and `handleDisconnect`, which
 * serves both `lobby:leave` and the socket's `disconnect`. The steps are functions on LobbyView;
 * `LobbyValid` is the invariant they keep; the class Lobby performs the same steps in place.
 *
 * The join here checks the seat index against the four seats; the handler as written does not, and
 * `JoinPastEndStartsEarly` in LobbyState shows what that lets through.
 */
module LobbyHandler {
  import opened Wrappers
  import GameRules
  import opened LobbyState

  /** `lobby:join`: take the seat, broadcast, and start the countdown when the fourth seat fills. */
  function JoinStep(v: LobbyView, sid: GameRules.SocketId, name: string, index: int): LobbyView {
    match Joined(v.slots, index, sid, name)
    case None => v
    case Some(s) =>
      var log := v.log + [Update(s)];
      if !v.started && Occupants(s) == MaxPlayers
      then v.(slots := s, started := true, timer := true, seconds := CountdownStart,
              log := log + [Countdown(CountdownStart)])
      else v.(slots := s, log := log)
  }

  /** `handleDisconnect`: free sid's seats; if one was freed while the countdown runs, cancel it. */
  function DisconnectStep(v: LobbyView, sid: GameRules.SocketId): LobbyView {
    if !Holds(v.slots, sid) then v
    else
      var s := Released(v.slots, sid);
      var u := v.(slots := s, log := v.log + [Update(s)]);
      if v.started && v.timer then u.(timer := false, started := false, log := u.log + [Cancel]) else u
  }

  /** How many times the game was started. */
  function Begins(log: seq<Event>): nat {
    if log == [] then 0 else Begins(log[..|log| - 1]) + (if log[|log| - 1] == Begin then 1 else 0)
  }

  /**
   * Four seats with distinct names; a running countdown belongs to a started lobby with every seat taken
   * and 1 to 5 seconds left; the game begins at most once, and after that the lobby stays started with no
   * countdown.
   */
  ghost predicate LobbyValid(v: LobbyView) {
    |v.slots| == MaxPlayers && UniqueNames(v.slots) &&
    (v.timer ==> v.started && 1 <= v.seconds <= CountdownStart && AllOccupied(v.slots)) &&
    Begins(v.log) <= 1 && (Begins(v.log) == 1 ==> v.started && !v.timer)
  }

  lemma BeginsAppend(log: seq<Event>, e: Event)
    ensures Begins(log + [e]) == Begins(log) + (if e == Begin then 1 else 0)
  {
    assert (log + [e])[..|log|] == log;
  }

  lemma StartValid()
    ensures LobbyValid(Start)
  {
  }

  lemma JoinValid(v: LobbyView, sid: GameRules.SocketId, name: string, index: int)
    requires LobbyValid(v)
    ensures LobbyValid(JoinStep(v, sid, name, index))
  {
    var j := Joined(v.slots, index, sid, name);
    if j.Some? {
      var s := j.value;
      JoinEffect(v.slots, index, sid, name);
      JoinFillsAll(v.slots, index, sid, name);
      BeginsAppend(v.log, Update(s));
      BeginsAppend(v.log + [Update(s)], Countdown(CountdownStart));
    }
  }

  lemma TickValid(v: LobbyView)
    requires LobbyValid(v) && v.timer
    ensures LobbyValid(CountdownTick(v))
  {
    BeginsAppend(v.log, if v.seconds > 1 then Countdown(v.seconds - 1) else Begin);
  }

  lemma DisconnectValid(v: LobbyView, sid: GameRules.SocketId)
    requires LobbyValid(v)
    ensures LobbyValid(DisconnectStep(v, sid))
  {
    if Holds(v.slots, sid) {
      var s := Released(v.slots, sid);
      ReleaseEffect(v.slots, sid);
      BeginsAppend(v.log, Update(s));
      BeginsAppend(v.log + [Update(s)], Cancel);
    }
  }

  /**
   * The countdown starts exactly when a join fills the last seat of a lobby that has not started; it
   * starts at 5 and says so.
   */
  lemma CountdownStartsWhenFull(v: LobbyView, sid: GameRules.SocketId, name: string, index: int)
    requires LobbyValid(v)
    ensures var w := JoinStep(v, sid, name, index);
      (w.timer && !v.timer) <==> (!v.started && Joined(v.slots, index, sid, name).Some? && AllOccupied(w.slots))
    ensures var w := JoinStep(v, sid, name, index);
      w.timer && !v.timer ==> w.started && w.seconds == CountdownStart && w.log[|w.log| - 1] == Countdown(CountdownStart)
  {
    if Joined(v.slots, index, sid, name).Some? {
      JoinFillsAll(v.slots, index, sid, name);
    }
  }

  /** A running countdown reaches the game start after its remaining seconds, with all four seats taken. */
  lemma BeginsWithFullTable(v: LobbyView)
    requires LobbyValid(v) && v.timer
    ensures var w := Ticks(v, v.seconds as nat);
      w.log == v.log + Remaining(v.seconds) && AllOccupied(w.slots) && |w.slots| == MaxPlayers
  {
    CountdownFinishes(v);
  }

  /** Once the game has begun no step starts another countdown. */
  lemma NoSecondCountdown(v: LobbyView, sid: GameRules.SocketId, name: string, index: int)
    requires LobbyValid(v) && Begins(v.log) == 1
    ensures !JoinStep(v, sid, name, index).timer && !DisconnectStep(v, sid).timer
    ensures JoinStep(v, sid, name, index).started && DisconnectStep(v, sid).started
  {
  }

  /** Freeing a seat during the countdown cancels it; a socket without a seat changes nothing. */
  lemma DisconnectCancels(v: LobbyView, sid: GameRules.SocketId)
    requires LobbyValid(v)
    ensures !Holds(v.slots, sid) ==> DisconnectStep(v, sid) == v
    ensures Holds(v.slots, sid) && v.timer ==>
      var w := DisconnectStep(v, sid);
      !w.timer && !w.started && w.log == v.log + [Update(w.slots), Cancel]
    ensures !Holds(DisconnectStep(v, sid).slots, sid)
  {
    if Holds(v.slots, sid) {
      ReleaseEffect(v.slots, sid);
    }
  }

  /** The lobby's module-level variables, updated in place by the handlers and the interval. */
  class Lobby {
    var slots: Slots
    var started: bool
    var timer: bool
    var seconds: int
    var log: seq<Event>

    function View(): LobbyView
      reads this
    {
      LobbyView(slots, started, timer, seconds, log)
    }

    ghost predicate Valid()
      reads this
    {
      LobbyValid(View())
    }

    constructor ()
      ensures View() == Start && Valid()
    {
      slots := Empty;
      started := false;
      timer := false;
      seconds := 0;
      log := [];
      StartValid();
    }

    /** `lobby:join` from socket sid. */
    method Join(sid: GameRules.SocketId, name: string, index: int)
      requires Valid()
      modifies this
      ensures Valid() && View() == JoinStep(old(View()), sid, name, index)
    {
      ghost var v0 := View();
      if 0 <= index < |slots| && slots[index].None? && !NameTaken(slots, name) {
        slots := slots[index := Some(NewSeat(sid, name))];
        log := log + [Update(slots)];
        if !started && Occupants(slots) == MaxPlayers {
          started := true;
          seconds := CountdownStart;
          log := log + [Countdown(seconds)];
          timer := true;
        }
      }
      JoinValid(v0, sid, name, index);
    }

    /** One second of the countdown interval. */
    method Tick()
      requires Valid() && timer
      modifies this
      ensures Valid() && View() == CountdownTick(old(View()))
    {
      ghost var v0 := View();
      seconds := seconds - 1;
      if seconds > 0 {
        log := log + [Countdown(seconds)];
      } else {
        timer := false;
        log := log + [Begin];
      }
      assert View() == CountdownTick(v0);
      TickValid(v0);
    }

    /** `handleDisconnect` for socket sid (`lobby:leave` and `disconnect`). */
    method Disconnect(sid: GameRules.SocketId)
      requires Valid()
      modifies this
      ensures Valid() && View() == DisconnectStep(old(View()), sid)
    {
      ghost var v0 := View();
      var s, changed := ReleaseSeats(slots, sid);
      slots := s;
      if changed {
        log := log + [Update(slots)];
        if started && timer {
          timer := false;
          started := false;
          log := log + [Cancel];
        }
      }
      DisconnectValid(v0, sid);
    }
  }
}
