# videojs-gifplayer in Dafny

A model of the gif player plugin for video.js. The plugin makes looping video
clips behave like animated images. A clip plays only while its rectangle lies
inside the viewport and inside its nearest scrollable node, and it is paused
otherwise. The model has three parts, all taken
from `src/plugin.js`:

- **Visibility evaluator** (module `Visibility`). `inViewport` tests that the
  element's bounding rectangle lies fully inside the viewport. The viewport
  size is `window.innerHeight`/`innerWidth`, or the document element's client
  size when the window size is 0 or absent. `getScrollElement` walks the
  parent chain and returns the first node whose `scrollHeight` exceeds its
  `clientHeight`. `inScroll` tests that the element lies fully inside that
  node, and is true when there is no such node. `inUserView` is the
  conjunction of `inViewport` and `inScroll`.
- **Playback coordinator** (module `Playback`). `Player` is a class whose
  fields the passes update in place. `SyncPass` is the body of the debounced
  `autoPlayGifs` callback. It skips entries without a player, starts visible
  paused players (rewinding to 0 first when the `data-restartOnPause`
  attribute is present), leaves visible playing players alone and pauses the
  rest. `HandleVisibilityChange` pauses every player when the page is hidden.
  Otherwise it runs one sync pass.
- **Ready-time configuration** (module `Ready`). It holds the `defaults`
  record, the key-by-key override done by `videojs.mergeOptions`, and
  `onPlayerReady`. That method sets `loop` and `controls`, sets the restart
  attribute when `restartOnPause` is on, and then runs a sync pass.

The DOM is replaced by values:

- An element is a `Node` with `scrollHeight`, `clientHeight` and its
  bounding rectangle.
- The chain `node, node.parentNode, ...` is a `seq<Node>`. Its end stands for
  `null`, so `getScrollElement(null)` is the empty chain. `GetScrollElement`
  returns the position of the node it finds in the chain.
- The result of `document.querySelectorAll('.vjs-gifplayer')` is a
  `seq<Mounted>`. Each entry holds the element's geometry and its `player`
  property, which may be `null`.
- The window is a record holding the four sizes `inViewport` reads.

An element is tested only against its nearest scrollable node, not against
every scrollable ancestor. `Visibility.OnlyNearestContainerIsChecked` gives an
element outside a scrolled-away outer container that still counts as in view,
and `Visibility.AncestorsAboveNearestContainerIgnored` shows that nothing above
the nearest scrollable node changes the answer.

The sync pass never reads whether the page is hidden. A pass that is still
pending from the debounce, or one set off by a scroll or resize, therefore
starts the visible players again after `handleVisibilityChange` has paused
them for a hidden page (`Playback.PassAfterHiddenPageRestarts`).

## Model

| member | source | states |
|---|---|---|
| `Visibility.InViewport` | src/plugin.js:12-20 | the element is in the viewport iff the viewport rectangle `(0, 0, height, width)` contains its rectangle on all four sides |
| `Visibility.EdgeOutsideViewport` | src/plugin.js:15-20 | one edge above, left of, below or right of the viewport makes `inViewport` false |
| `Visibility.WindowSizeWins` | src/plugin.js:18-19 | when the window sizes are non-zero, the document element's sizes do not affect the result |
| `Visibility.GetScrollElement` | src/plugin.js:23-33 | the result is the first scrollable node of the chain: that node is scrollable and every earlier node is not; `None` (null) is returned iff no node of the chain is scrollable, in particular for the empty chain (null) |
| `Visibility.FirstScrollableUnique` | src/plugin.js:23-33 | the first scrollable node of a chain is unique |
| `Visibility.FirstScrollableIsFound` | src/plugin.js:23-33 | any first scrollable node is the one `getScrollElement` returns |
| `Visibility.InScroll` | src/plugin.js:35-51 | true iff no node of the element's chain is scrollable, or the first scrollable node contains the element on all four sides |
| `Visibility.ScrollableElementInScroll` | src/plugin.js:28-29 | a scrollable element is its own scroll container, so `inScroll` holds for it |
| `Visibility.InUserView` | src/plugin.js:53-55 | true iff the viewport contains the element, and the element either has no scrollable node in its chain or is contained by the first one |
| `Visibility.ContainedEverywhereIsVisible` | src/plugin.js:53-55 | an element contained by the viewport and by every scrollable ancestor is in the user's view |
| `Visibility.OutsideNearestContainerIsHidden` | src/plugin.js:39-47 | an element that its nearest scroll container does not contain is not in the user's view |
| `Visibility.OnlyNearestContainerIsChecked` | src/plugin.js:23-55 | an element contained by its scrollable parent but not by its scrollable grandparent is still in the user's view |
| `Visibility.AncestorsAboveNearestContainerIgnored` | src/plugin.js:23-55 | once a scrollable node is found in the chain, appending more ancestors above the chain leaves `inUserView` unchanged |
| `Playback.SyncStep` | src/plugin.js:65-76 | after one iteration of the callback a player is paused iff it is out of view; the attribute, `loop` and `controls` are untouched |
| `Playback.VisiblePausedPlayerStarts` | src/plugin.js:66-72 | a paused player in view ends up playing, at position 0 iff it has the restart attribute and at its old position otherwise |
| `Playback.VisiblePlayingPlayerUntouched` | src/plugin.js:66-67 | a playing player in view is unchanged, position included |
| `Playback.HiddenPlayerPauses` | src/plugin.js:73-75 | a player out of view ends up paused with nothing else changed |
| `Playback.PassAfterHiddenPageRestarts` | src/plugin.js:62-77 | a pass does not consult page visibility: a player paused for a hidden page starts again (rewound to 0 when it has the attribute) when a later pass finds it in view |
| `Playback.TargetStateIsFixed` | src/plugin.js:57-58 | a step leaves a player unchanged iff the player already plays when in view and is paused when out of view |
| `Playback.SyncStepIdempotent` | src/plugin.js:62-77 | a second step with the same visibility changes nothing |
| `Playback.SyncPass` | src/plugin.js:57-78 | every entry with a player ends in the state given by one step for its visibility; players not in the list are untouched; afterwards every player is in its target state, and another pass over the same layout changes nothing |
| `Playback.HandleVisibilityChange` | src/plugin.js:98-112 | on a hidden page every player is paused with nothing else changed, whatever its visibility; on a shown page the effect is exactly one sync pass |
| `Ready.MergeKeepsDefaultsUnlessGiven` | src/plugin.js:5-9 | with no options given the plugin runs with `controls = false`, `loop = true`, `restartOnPause = true`; options given for every key replace all three |
| `Ready.Configure` | src/plugin.js:132-138 | `loop` and `controls` take the option values; the attribute is present afterwards iff it was before or `restartOnPause` is on; playback state and position are untouched |
| `Ready.ConfigureNeverClearsRestart` | src/plugin.js:136-138 | the restart attribute, once set, stays set |
| `Ready.ConfigureWithDefaults` | src/plugin.js:5-9 | with the defaults a player loops, hides its controls and carries the restart attribute |
| `Ready.ConfigureIdempotent` | src/plugin.js:132-138 | configuring twice with the same options is the same as configuring once |
| `Ready.OnPlayerReady` | src/plugin.js:129-143 | the player is configured, then one sync pass runs over the marked elements, which start from the configured state of this player if they include it; if they do not include it, the player is only configured |

## Left out

- The `lodash.debounce` wrapper and its 300 ms quiet window (src/plugin.js:59, 78). These are timers in a foreign library. A debounced call is modelled as one immediate sync pass.
- Listener registration for `resize`, `scroll` and the visibility change event (src/plugin.js:114-116). This is browser I/O.
- Detection of the vendor-prefixed Page Visibility API (src/plugin.js:81-94). Whether the page is hidden is a boolean parameter. On a browser without the API the listener is registered under an event name no browser fires, so it is never called and nothing of it is lost here.
- `document.querySelectorAll` and `getBoundingClientRect` are replaced by the `Mounted` sequence and the `Node` records. `play`, `pause` and `currentTime` are field updates on `Player`. The asynchronous start of playback is not modelled.
- `addClass`, the `videojs.plugin` registration and the `VERSION` string (src/plugin.js:130, 157-169) belong to video.js, which is not part of this model. `videojs.mergeOptions` is modelled only as the key-by-key override `Ready.Merge`.
- JavaScript truthiness. Options are booleans, and the restart attribute is present or absent. A missing `innerHeight`/`innerWidth` is written as 0, which `||` treats the same way.
- The `document` node at the top of a real parent chain has no `scrollHeight`, so it never satisfies the scroll test. It is left out of the chain.
- Floating-point layout. Rectangle edges are `real` and sizes are integers. The code only compares them.
- `SyncPass`, `HandleVisibilityChange` and `OnPlayerReady` require that no two entries share a player. Each element with the marker class is the root of its own player, so this always holds in the page; sharing between entries is not modelled.
- `Ready.MergeKeepsDefaultsUnlessGiven`: states only the two extreme cases (no key given, every key given), not every mix of given keys.
