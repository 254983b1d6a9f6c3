/**
 * The playback coordinator of the gif player plugin (src/plugin.js): the
 * body of the debounced `autoPlayGifs` callback and `handleVisibilityChange`.
 *
 * `document.querySelectorAll('.vjs-gifplayer')` becomes the sequence of
 * `Mounted` entries it would return, each with the geometry the visibility
 * evaluator reads and the `player` property of the element (`null` for an
 * element whose player is not attached yet).
 */
module Playback {
  import opened Visibility

  /** What the plugin reads or writes of one player: a snapshot of a `Player`. */
  datatype PlayerState = PlayerState(paused: bool, currentTime: real,
                                     restartOnPause: bool, loop: bool, controls: bool)

  /**
   * A video.js player, reduced to the fields the plugin touches.
   * `restartOnPause` is the presence of the `data-restartOnPause` attribute.
   */
  class Player {
    var paused: bool
    var currentTime: real
    var restartOnPause: bool
    var loop: bool
    var controls: bool

    function State(): PlayerState
      reads this
    {
      PlayerState(paused, currentTime, restartOnPause, loop, controls)
    }
  }

  /** An element carrying the marker class. */
  datatype Mounted = Mounted(node: Node, parents: seq<Node>, player: Player?)

  /** The players of the entries that have one. */
  function Players(gifs: seq<Mounted>): set<Player?> {
    set i | 0 <= i < |gifs| && gifs[i].player != null :: gifs[i].player
  }

  /** Each marker-class element is the root of its own player. */
  ghost predicate DistinctPlayers(gifs: seq<Mounted>) {
    forall i, j :: 0 <= i < j < |gifs| && gifs[i].player != null ==> gifs[i].player != gifs[j].player
  }

  /** `inUserView(gifPlayer)` for one entry. */
  predicate Visible(m: Mounted, w: Window) {
    InUserView(m.node, m.parents, w)
  }

  /**
   * The promise of the doc comment of `autoPlayGifs`: a player in view plays,
   * a player out of view is paused.
   */
  predicate InTargetState(s: PlayerState, visible: bool) {
    s.paused == !visible
  }

  /** What one iteration of the `autoPlayGifs` loop does to a player. */
  function SyncStep(s: PlayerState, visible: bool): (t: PlayerState)
    ensures InTargetState(t, visible)
    ensures t.restartOnPause == s.restartOnPause && t.loop == s.loop && t.controls == s.controls
  {
    if visible then
      if s.paused then
        s.(paused := false, currentTime := if s.restartOnPause then 0.0 else s.currentTime)
      else s
    else
      s.(paused := true)
  }

  /** A visible paused player starts, rewound to 0 exactly when it carries the attribute. */
  lemma VisiblePausedPlayerStarts(s: PlayerState)
    requires s.paused
    ensures !SyncStep(s, true).paused
    ensures SyncStep(s, true).currentTime == if s.restartOnPause then 0.0 else s.currentTime
  {
  }

  /** A visible player that is playing already is left as it is, position included. */
  lemma VisiblePlayingPlayerUntouched(s: PlayerState)
    requires !s.paused
    ensures SyncStep(s, true) == s
  {
  }

  /** A player out of view is paused and keeps its position. */
  lemma HiddenPlayerPauses(s: PlayerState)
    ensures SyncStep(s, false) == s.(paused := true)
  {
  }

  /**
   * The sync pass never reads whether the page is hidden: a player that the
   * hidden-page branch paused starts again at the next pass if it is in view.
   */
  lemma PassAfterHiddenPageRestarts(s: PlayerState)
    ensures !SyncStep(s.(paused := true), true).paused
    ensures s.restartOnPause ==> SyncStep(s.(paused := true), true).currentTime == 0.0
  {
  }

  /** A player is left unchanged by a step exactly when it is in its target state already. */
  lemma TargetStateIsFixed(s: PlayerState, visible: bool)
    ensures SyncStep(s, visible) == s <==> InTargetState(s, visible)
  {
  }

  /** A second step with the same visibility changes nothing. */
  lemma SyncStepIdempotent(s: PlayerState, visible: bool)
    ensures SyncStep(SyncStep(s, visible), visible) == SyncStep(s, visible)
  {
  }

  /**
   * The `autoPlayGifs` callback: play every gif in view, pause every gif out
   * of view, skip the elements without a player.
   */
  method SyncPass(gifs: seq<Mounted>, w: Window)
    requires DistinctPlayers(gifs)
    modifies Players(gifs)
    ensures forall i :: 0 <= i < |gifs| && gifs[i].player != null ==>
              gifs[i].player.State() == SyncStep(old(gifs[i].player.State()), Visible(gifs[i], w))
    ensures forall i :: 0 <= i < |gifs| && gifs[i].player != null ==>
              InTargetState(gifs[i].player.State(), Visible(gifs[i], w))
    // so a second pass over the same layout changes no player
    ensures forall i :: 0 <= i < |gifs| && gifs[i].player != null ==>
              SyncStep(gifs[i].player.State(), Visible(gifs[i], w)) == gifs[i].player.State()
  {
    for i := 0 to |gifs|
      invariant forall k :: 0 <= k < i && gifs[k].player != null ==>
                  gifs[k].player.State() == SyncStep(old(gifs[k].player.State()), Visible(gifs[k], w))
      invariant forall k :: i <= k < |gifs| && gifs[k].player != null ==>
                  gifs[k].player.State() == old(gifs[k].player.State())
    {
      var player := gifs[i].player;
      if player != null {
        if InUserView(gifs[i].node, gifs[i].parents, w) {
          if player.paused {
            if player.restartOnPause {
              player.currentTime := 0.0;
            }
            player.paused := false;
          }
        } else {
          player.paused := true;
        }
      }
    }
  }

  /**
   * `handleVisibilityChange`: on a hidden page every player is paused; on a
   * shown page one sync pass runs (the debounced call is taken as immediate).
   */
  method HandleVisibilityChange(gifs: seq<Mounted>, w: Window, pageHidden: bool)
    requires DistinctPlayers(gifs)
    modifies Players(gifs)
    ensures pageHidden ==>
              forall i :: 0 <= i < |gifs| && gifs[i].player != null ==>
                gifs[i].player.State() == old(gifs[i].player.State()).(paused := true)
    ensures !pageHidden ==>
              forall i :: 0 <= i < |gifs| && gifs[i].player != null ==>
                gifs[i].player.State() == SyncStep(old(gifs[i].player.State()), Visible(gifs[i], w))
  {
    if pageHidden {
      for i := 0 to |gifs|
        invariant forall k :: 0 <= k < i && gifs[k].player != null ==>
                    gifs[k].player.State() == old(gifs[k].player.State()).(paused := true)
        invariant forall k :: i <= k < |gifs| && gifs[k].player != null ==>
                    gifs[k].player.State() == old(gifs[k].player.State())
      {
        var player := gifs[i].player;
        if player != null {
          player.paused := true;
        }
      }
    } else {
      SyncPass(gifs, w);
    }
  }
}
