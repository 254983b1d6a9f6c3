/**
 * The visibility evaluator of the gif player plugin (src/plugin.js).
 *
 * The DOM is abstracted away: an element is a `Node` carrying the two
 * heights the scroll test reads and the rectangle `getBoundingClientRect`
 * returns, the window is a record of the four sizes the viewport test
 * reads, and the chain `node, node.parentNode, node.parentNode.parentNode, ...`
 * is a sequence of nodes whose end stands for `null`.  The `document` node at
 * the top of a real chain has no `scrollHeight`, so the comparison with it is
 * always false; it is left out of the chain for that reason.
 */
module Visibility {
  import opened Wrappers

  /** A bounding client rectangle; only its four edges are ever read. */
  datatype Rect = Rect(top: real, left: real, bottom: real, right: real)

  /** An element as the evaluator sees it. */
  datatype Node = Node(scrollHeight: int, clientHeight: int, rect: Rect)

  /**
   * The sizes the viewport test reads: `window.innerHeight`, `window.innerWidth`
   * and `document.documentElement.clientHeight`/`clientWidth`.  A window size
   * of 0 stands both for the value 0 and for a browser that does not provide
   * it; in both cases the JavaScript `||` falls back to the document size.
   */
  datatype Window = Window(innerHeight: nat, innerWidth: nat,
                           documentClientHeight: nat, documentClientWidth: nat)

  /** `outer` contains `inner` on all four sides (the test of `inScroll`). */
  predicate Contains(outer: Rect, inner: Rect) {
    outer.top <= inner.top &&
    outer.left <= inner.left &&
    outer.bottom >= inner.bottom &&
    outer.right >= inner.right
  }

  /** A node whose content is taller than its visible box. */
  predicate Scrollable(n: Node) {
    n.scrollHeight > n.clientHeight
  }

  /** `chain[k]` is scrollable and no node before it is. */
  ghost predicate IsFirstScrollable(chain: seq<Node>, k: int) {
    0 <= k < |chain| && Scrollable(chain[k]) &&
    forall j :: 0 <= j < k ==> !Scrollable(chain[j])
  }

  /** No node of the chain is scrollable. */
  ghost predicate NoneScrollable(chain: seq<Node>) {
    forall j :: 0 <= j < |chain| ==> !Scrollable(chain[j])
  }

  // ---------------------------------------------------------------- viewport

  /** `window.innerHeight || document.documentElement.clientHeight` */
  function ViewportHeight(w: Window): nat {
    if w.innerHeight != 0 then w.innerHeight else w.documentClientHeight
  }

  /** `window.innerWidth || document.documentElement.clientWidth` */
  function ViewportWidth(w: Window): nat {
    if w.innerWidth != 0 then w.innerWidth else w.documentClientWidth
  }

  /** The viewport as a rectangle in client coordinates. */
  function ViewportRect(w: Window): Rect {
    Rect(0.0, 0.0, ViewportHeight(w) as real, ViewportWidth(w) as real)
  }

  /** `inViewport(el)`: the element lies entirely inside the viewport. */
  function InViewport(el: Node, w: Window): (r: bool)
    ensures r <==> Contains(ViewportRect(w), el.rect)
  {
    el.rect.top >= 0.0 &&
    el.rect.left >= 0.0 &&
    el.rect.bottom <= ViewportHeight(w) as real &&
    el.rect.right <= ViewportWidth(w) as real
  }

  /** A single edge outside the viewport makes the element not in the viewport. */
  lemma EdgeOutsideViewport(el: Node, w: Window)
    requires el.rect.top < 0.0 || el.rect.left < 0.0 ||
             el.rect.bottom > ViewportHeight(w) as real ||
             el.rect.right > ViewportWidth(w) as real
    ensures !InViewport(el, w)
  {
  }

  /** The window's own size is used whenever it is non-zero, whatever the document says. */
  lemma WindowSizeWins(el: Node, w: Window, dh: nat, dw: nat)
    requires w.innerHeight != 0 && w.innerWidth != 0
    ensures InViewport(el, w) == InViewport(el, w.(documentClientHeight := dh, documentClientWidth := dw))
  {
  }

  // ------------------------------------------------------- scroll container

  /**
   * `getScrollElement(node)` on the chain starting at `node` (an empty chain
   * is `null`): the position in the chain of the first scrollable node, or
   * `None` for `null`.
   */
  function GetScrollElement(chain: seq<Node>): (r: Option<nat>)
    ensures r.Some? ==> IsFirstScrollable(chain, r.value)
    ensures r.None? <==> NoneScrollable(chain)
  {
    if |chain| == 0 then None
    else if Scrollable(chain[0]) then Some(0)
    else match GetScrollElement(chain[1..])
      case None => None
      case Some(k) => Some(k + 1)
  }

  /** There is at most one first scrollable node. */
  lemma FirstScrollableUnique(chain: seq<Node>, k: int, k': int)
    requires IsFirstScrollable(chain, k) && IsFirstScrollable(chain, k')
    ensures k == k'
  {
  }

  /** Every first scrollable node is the one `GetScrollElement` finds. */
  lemma FirstScrollableIsFound(chain: seq<Node>, k: int)
    requires GetScrollElement(chain) == Some(k)
    ensures forall k' :: IsFirstScrollable(chain, k') ==> k' == k
  {
  }

  /** The chain of `el`: the element itself, then its ancestors. */
  function Chain(el: Node, parents: seq<Node>): seq<Node> {
    [el] + parents
  }

  /**
   * `inScroll(el)`: true when no node of the chain is scrollable, and
   * otherwise exactly when the first scrollable node contains the element.
   */
  function InScroll(el: Node, parents: seq<Node>): (r: bool)
    ensures r <==> NoneScrollable(Chain(el, parents)) ||
                   exists k :: IsFirstScrollable(Chain(el, parents), k) &&
                               Contains(Chain(el, parents)[k].rect, el.rect)
  {
    var chain := Chain(el, parents);
    match GetScrollElement(chain)
    case None => true
    case Some(k) =>
      Contains(chain[k].rect, el.rect)
  }

  /** A scrollable element is its own scroll container, and contains itself. */
  lemma ScrollableElementInScroll(el: Node, parents: seq<Node>)
    requires Scrollable(el)
    ensures InScroll(el, parents)
  {
  }

  // ------------------------------------------------------------ user view

  /**
   * `inUserView(el)`: the element is inside the viewport and inside its
   * nearest scroll container, if it has one.
   */
  function InUserView(el: Node, parents: seq<Node>, w: Window): (r: bool)
    ensures r <==> Contains(ViewportRect(w), el.rect) &&
                   (NoneScrollable(Chain(el, parents)) ||
                    exists k :: IsFirstScrollable(Chain(el, parents), k) &&
                                Contains(Chain(el, parents)[k].rect, el.rect))
  {
    InViewport(el, w) && InScroll(el, parents)
  }

  /**
   * An element inside the viewport and inside every scrollable node of its
   * chain is in the user's view.
   */
  lemma ContainedEverywhereIsVisible(el: Node, parents: seq<Node>, w: Window)
    requires Contains(ViewportRect(w), el.rect)
    requires forall j :: 0 <= j < |parents| && Scrollable(parents[j]) ==> Contains(parents[j].rect, el.rect)
    ensures InUserView(el, parents, w)
  {
  }

  /** An element the nearest scroll container does not contain is not in view. */
  lemma OutsideNearestContainerIsHidden(el: Node, parents: seq<Node>, w: Window, k: int)
    requires IsFirstScrollable(Chain(el, parents), k)
    requires !Contains(Chain(el, parents)[k].rect, el.rect)
    ensures !InUserView(el, parents, w)
  {
  }

  /**
   * Only the nearest scroll container is consulted: an element inside a
   * scrollable parent that is itself scrolled out of a scrollable grandparent
   * still counts as in view.
   */
  lemma OnlyNearestContainerIsChecked()
    ensures var w := Window(100, 100, 0, 0);
            var el := Node(10, 10, Rect(10.0, 10.0, 20.0, 20.0));
            var inner := Node(500, 50, Rect(0.0, 0.0, 50.0, 50.0));
            var outer := Node(500, 50, Rect(30.0, 0.0, 80.0, 50.0));
            Scrollable(outer) && !Contains(outer.rect, el.rect) &&
            InUserView(el, [inner, outer], w)
  {
  }

  /**
   * Ancestors above the nearest scroll container never change the answer:
   * extending the chain beyond it leaves `inUserView` as it is.
   */
  lemma AncestorsAboveNearestContainerIgnored(el: Node, parents: seq<Node>, more: seq<Node>, w: Window, k: int)
    requires IsFirstScrollable(Chain(el, parents), k)
    ensures InUserView(el, parents + more, w) == InUserView(el, parents, w)
  {
    assert Chain(el, parents + more) == Chain(el, parents) + more;
    assert IsFirstScrollable(Chain(el, parents + more), k);
  }
}
