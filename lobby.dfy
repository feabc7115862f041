/**
  The altar interaction of the lobby: the Interaction component that the
  lobby player controller adds to itself. While the player stands in the
  altar's trigger, releasing T toggles the controller's speed between 0 and
  5; outside it, every frame puts the speed back to 5. The trigger callbacks
  set the `triggered` flag and show or hide the altar menu.

  Engine inputs become event parameters: the collider's name and its
  parent's name (None when the collider has no parent), and whether T was
  released this frame. Speed is an integer: only 0 and 5 are ever written.
 */
module Lobby {
  import opened Wrappers

  const AltarParent := "Altare"
  const AltarTrigger := "TriggerAltare"
  const WalkSpeed := 5

  /** The collider passed to a trigger callback. */
  datatype Collider = Collider(name: string, parentName: Option<string>)

  /** The check both trigger callbacks make. It reads the parent's name first,
      so a collider without a parent raises before anything is written. */
  predicate IsAltarTrigger(c: Collider)
  {
    c.parentName == Some(AltarParent) && c.name == AltarTrigger
  }

  /** What one engine callback delivers to the component. */
  datatype Event =
    | Frame(tReleased: bool)        // Update
    | TriggerStay(coll: Collider)   // OnTriggerStay2D
    | TriggerExit(coll: Collider)   // OnTriggerExit2D

  /** Interaction.triggered, PlayerControllerLobby.speed, and whether the menu text is active. */
  datatype LobbyState = LobbyState(triggered: bool, speed: int, menuVisible: bool)

  /** The state right after both Awake methods; the menu's visibility is the scene's. */
  function Initial(menuVisible: bool): LobbyState
  {
    LobbyState(false, WalkSpeed, menuVisible)
  }

  /** The speed Update leaves behind. */
  function UpdatedSpeed(triggered: bool, tReleased: bool, speed: int): int
  {
    if triggered && tReleased && speed != 0 then 0
    else if !triggered || tReleased then WalkSpeed
    else speed
  }

  /** The effect of one callback on the state. */
  function Step(s: LobbyState, e: Event): LobbyState
  {
    match e
    case Frame(t) => s.(speed := UpdatedSpeed(s.triggered, t, s.speed))
    case TriggerStay(c) => if IsAltarTrigger(c) then s.(triggered := true, menuVisible := true) else s
    case TriggerExit(c) => if IsAltarTrigger(c) then s.(triggered := false, menuVisible := false) else s
  }

  /** The state after a sequence of callbacks, in delivery order. */
  function Run(s: LobbyState, es: seq<Event>): LobbyState
    decreases |es|
  {
    if es == [] then s else Run(Step(s, es[0]), es[1..])
  }

  // ---------------------------------------------------------------------------
  // One callback at a time
  // ---------------------------------------------------------------------------

  /** Outside the trigger, Update sets the speed to 5 whatever the key state. */
  lemma UpdateOutsideWalks(s: LobbyState, t: bool)
    requires !s.triggered
    ensures Step(s, Frame(t)) == s.(speed := WalkSpeed)
  {
  }

  /** Inside the trigger, releasing T toggles the speed: any non-zero speed stops, 0 walks again. */
  lemma ReleaseInsideToggles(s: LobbyState)
    requires s.triggered
    ensures Step(s, Frame(true)).speed == (if s.speed != 0 then 0 else WalkSpeed)
    ensures Step(s, Frame(true)).triggered && Step(s, Frame(true)).menuVisible == s.menuVisible
  {
  }

  /** Inside the trigger, a frame without a T release changes nothing. */
  lemma NoReleaseInsideKeepsState(s: LobbyState)
    requires s.triggered
    ensures Step(s, Frame(false)) == s
  {
  }

  /** Two releases inside the trigger bring a speed of 0 or 5 back to where it was. */
  lemma TwoReleasesRestoreSpeed(s: LobbyState)
    requires s.triggered && (s.speed == 0 || s.speed == WalkSpeed)
    ensures Run(s, [Frame(true), Frame(true)]) == s
  {
    assert [Frame(true), Frame(true)][1..] == [Frame(true)];
  }

  /** Staying in the altar trigger marks it and shows the menu; any other stay changes nothing. */
  lemma StayEffect(s: LobbyState, c: Collider)
    ensures IsAltarTrigger(c) ==> Step(s, TriggerStay(c)) == s.(triggered := true, menuVisible := true)
    ensures !IsAltarTrigger(c) ==> Step(s, TriggerStay(c)) == s
  {
  }

  /** Leaving the altar trigger clears the mark and hides the menu; any other exit changes nothing. */
  lemma ExitEffect(s: LobbyState, c: Collider)
    ensures IsAltarTrigger(c) ==> Step(s, TriggerExit(c)) == s.(triggered := false, menuVisible := false)
    ensures !IsAltarTrigger(c) ==> Step(s, TriggerExit(c)) == s
  {
  }

  // ---------------------------------------------------------------------------
  // Whole runs
  // ---------------------------------------------------------------------------

  /** The flag set by the last altar stay or exit in es, or `before` when there is none. */
  function LastAltarFlag(es: seq<Event>, before: bool): bool
    decreases |es|
  {
    if es == [] then before
    else
      var e := es[|es| - 1];
      if (e.TriggerStay? || e.TriggerExit?) && IsAltarTrigger(e.coll) then e.TriggerStay?
      else LastAltarFlag(es[..|es| - 1], before)
  }

  /** The run of es followed by one more event is the step after the run. */
  lemma {:induction false} RunSnoc(s: LobbyState, es: seq<Event>, e: Event)
    ensures Run(s, es + [e]) == Step(Run(s, es), e)
    decreases |es|
  {
    if es != [] {
      assert (es + [e])[1..] == es[1..] + [e];
      RunSnoc(Step(s, es[0]), es[1..], e);
    }
  }

  /** Only the trigger callbacks move the flag: after any run, `triggered` is the
      flag of the last altar stay or exit, and frames in between do not matter. */
  lemma {:induction false} TriggeredFollowsAltarEvents(s: LobbyState, es: seq<Event>)
    ensures Run(s, es).triggered == LastAltarFlag(es, s.triggered)
    decreases |es|
  {
    if es != [] {
      var init := es[..|es| - 1];
      var e := es[|es| - 1];
      assert es == init + [e];
      RunSnoc(s, init, e);
      TriggeredFollowsAltarEvents(s, init);
    }
  }

  /** Once the menu and the flag agree, they agree after every later callback. */
  lemma {:induction false} MenuTracksTrigger(s: LobbyState, es: seq<Event>)
    requires s.menuVisible == s.triggered
    ensures Run(s, es).menuVisible == Run(s, es).triggered
    decreases |es|
  {
    if es != [] {
      MenuTracksTrigger(Step(s, es[0]), es[1..]);
    }
  }

  /** From a speed of 0 or 5, the speed stays 0 or 5. */
  lemma {:induction false} SpeedIsStoppedOrWalking(s: LobbyState, es: seq<Event>)
    requires s.speed == 0 || s.speed == WalkSpeed
    ensures Run(s, es).speed == 0 || Run(s, es).speed == WalkSpeed
    decreases |es|
  {
    if es != [] {
      SpeedIsStoppedOrWalking(Step(s, es[0]), es[1..]);
    }
  }

  /** From the state both Awake methods leave, the speed is always 0 or 5. */
  lemma AwakeSpeedIsStoppedOrWalking(menuVisible: bool, es: seq<Event>)
    ensures Run(Initial(menuVisible), es).speed == 0 || Run(Initial(menuVisible), es).speed == WalkSpeed
  {
    SpeedIsStoppedOrWalking(Initial(menuVisible), es);
  }

  /** After any frame, the player is stopped only while inside the altar trigger
      (an exit alone leaves the speed as it was until the next frame). */
  lemma {:induction false} StoppedOnlyAtAltar(s: LobbyState, es: seq<Event>, t: bool)
    ensures Run(s, es + [Frame(t)]).speed == 0 ==> Run(s, es + [Frame(t)]).triggered
  {
    RunSnoc(s, es, Frame(t));
  }

  // ---------------------------------------------------------------------------
  // The components
  // ---------------------------------------------------------------------------

  /** The part of PlayerControllerLobby that Interaction touches. */
  class PlayerControllerLobby {
    var speed: int
    var menuVisible: bool

    /** Awake: the speed starts at 5; the menu text is whatever the scene made it. */
    constructor Awake(menuVisible: bool)
      ensures speed == WalkSpeed && this.menuVisible == menuVisible
    {
      speed := WalkSpeed;
      this.menuVisible := menuVisible;
    }
  }

  class Interaction {
    var triggered: bool
    /** The PlayerControllerLobby on the same game object (GetComponent). */
    const player: PlayerControllerLobby

    /** Awake: the flag starts cleared. */
    constructor Awake(player: PlayerControllerLobby)
      ensures this.player == player && !triggered
      ensures player.speed == WalkSpeed ==> State() == Initial(player.menuVisible)
    {
      this.player := player;
      triggered := false;
    }

    ghost function State(): LobbyState
      reads this, player
    {
      LobbyState(triggered, player.speed, player.menuVisible)
    }

    /** Update, with the engine's key state as a parameter. It writes only the speed. */
    method Update(tReleased: bool)
      modifies player`speed
      ensures State() == Step(old(State()), Frame(tReleased))
      ensures triggered == old(triggered)
    {
      if triggered && tReleased && player.speed != 0 {
        player.speed := 0;
      } else {
        if !triggered || tReleased {
          player.speed := WalkSpeed;
        }
      }
    }

    /** OnTriggerStay2D; `raised` tells that the collider had no parent, so
        reading the parent's name threw before anything was written. */
    method OnTriggerStay2D(coll: Collider) returns (raised: bool)
      modifies this, player`menuVisible
      ensures State() == Step(old(State()), TriggerStay(coll))
      ensures raised <==> coll.parentName.None?
    {
      raised := coll.parentName.None?;
      if raised {
        return;
      }
      if coll.parentName.value == AltarParent && coll.name == AltarTrigger {
        player.menuVisible := true;
        triggered := true;
      }
    }

    /** OnTriggerExit2D, with the same null-parent behaviour. */
    method OnTriggerExit2D(coll: Collider) returns (raised: bool)
      modifies this, player`menuVisible
      ensures State() == Step(old(State()), TriggerExit(coll))
      ensures raised <==> coll.parentName.None?
    {
      raised := coll.parentName.None?;
      if raised {
        return;
      }
      if coll.parentName.value == AltarParent && coll.name == AltarTrigger {
        player.menuVisible := false;
        triggered := false;
      }
    }
  }

  /** A visit to the altar: walk in, release T twice, walk out while stopped.
      Leaving the trigger does not restore the speed by itself; the next frame does. */
  method AltarVisit() returns (speeds: seq<int>, triggeredAtEnd: bool)
    ensures speeds == [WalkSpeed, 0, WalkSpeed, 0, 0, WalkSpeed]
    ensures !triggeredAtEnd
  {
    var player := new PlayerControllerLobby.Awake(false);
    var interaction := new Interaction.Awake(player);
    var altar := Collider(AltarTrigger, Some(AltarParent));
    var _ := interaction.OnTriggerStay2D(altar);
    interaction.Update(false);
    speeds := [player.speed];
    interaction.Update(true);
    speeds := speeds + [player.speed];
    interaction.Update(true);
    speeds := speeds + [player.speed];
    interaction.Update(true);
    speeds := speeds + [player.speed];
    var _ := interaction.OnTriggerExit2D(altar);
    speeds := speeds + [player.speed];
    interaction.Update(false);
    speeds := speeds + [player.speed];
    triggeredAtEnd := interaction.triggered;
  }
}
