/**
 * Ready-time configuration of the gif player plugin (src/plugin.js):
 * the `defaults` record, the merge that `videojs.mergeOptions` performs on
 * it, and `onPlayerReady`.
 */
module Ready {
  import opened Wrappers
  import opened Visibility
  import opened Playback

  /** The options the plugin recognises. */
  datatype Options = Options(controls: bool, loop: bool, restartOnPause: bool)

  /** The plugin's `defaults`. */
  const Defaults: Options := Options(controls := false, loop := true, restartOnPause := true)

  /** The options a page passes to the plugin; an absent key is `None`. */
  datatype Overrides = Overrides(controls: Option<bool>, loop: Option<bool>, restartOnPause: Option<bool>)

  /** The key-by-key override of `base` by `given`. */
  function Merge(base: Options, given: Overrides): Options {
    Options(
      controls := if given.controls.Some? then given.controls.value else base.controls,
      loop := if given.loop.Some? then given.loop.value else base.loop,
      restartOnPause := if given.restartOnPause.Some? then given.restartOnPause.value else base.restartOnPause)
  }

  /** Without overrides the plugin runs with its defaults; a full override replaces them. */
  lemma MergeKeepsDefaultsUnlessGiven(c: bool, l: bool, r: bool)
    ensures Merge(Defaults, Overrides(None, None, None)) == Defaults
    ensures Merge(Defaults, Overrides(Some(c), Some(l), Some(r))) == Options(c, l, r)
  {
  }

  /** What `onPlayerReady` does to the player before its sync pass. */
  function Configure(s: PlayerState, options: Options): (t: PlayerState)
    ensures t.loop == options.loop && t.controls == options.controls
    ensures t.restartOnPause <==> s.restartOnPause || options.restartOnPause
    ensures t.paused == s.paused && t.currentTime == s.currentTime
  {
    s.(loop := options.loop, controls := options.controls,
       restartOnPause := s.restartOnPause || options.restartOnPause)
  }

  /** The attribute is set by truthy `restartOnPause` and never cleared. */
  lemma ConfigureNeverClearsRestart(s: PlayerState, options: Options)
    requires s.restartOnPause
    ensures Configure(s, options).restartOnPause
  {
  }

  /** With the defaults a player loops, shows no controls and restarts on resume. */
  lemma ConfigureWithDefaults(s: PlayerState)
    ensures Configure(s, Defaults).loop
    ensures !Configure(s, Defaults).controls
    ensures Configure(s, Defaults).restartOnPause
  {
  }

  /** Configuring twice with the same options is configuring once. */
  lemma ConfigureIdempotent(s: PlayerState, options: Options)
    ensures Configure(Configure(s, options), options) == Configure(s, options)
  {
  }

  /**
   * `onPlayerReady(player, options)`: set `loop` and `controls`, set the
   * `data-restartOnPause` attribute when asked to, then run one sync pass
   * over the marked elements `gifs` (which include the player's own element
   * once the marker class is added, if it is in the document).
   */
  method OnPlayerReady(player: Player, options: Options, gifs: seq<Mounted>, w: Window)
    requires DistinctPlayers(gifs)
    modifies {player} + Players(gifs)
    ensures forall i :: 0 <= i < |gifs| && gifs[i].player != null ==>
              gifs[i].player.State() ==
                SyncStep(if gifs[i].player == player then Configure(old(player.State()), options)
                         else old(gifs[i].player.State()),
                         Visible(gifs[i], w))
    ensures player !in Players(gifs) ==> player.State() == Configure(old(player.State()), options)
  {
    player.loop := options.loop;
    player.controls := options.controls;
    if options.restartOnPause {
      player.restartOnPause := true;
    }
    SyncPass(gifs, w);
  }
}
