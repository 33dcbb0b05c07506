/**
 * The click dispatcher (`ClickHandler`): tracks the cursor, maps a click to normalised device
 * coordinates, takes the nearest hit the raycaster reports, walks up the scene graph to the
 * direct child of the clickables group and selects that object's id.
 */
module Raycasting {
  import opened Wrappers
  import opened Selection
  import opened Text

  /** The canvas bounding rectangle, as `getBoundingClientRect()` reports it. */
  datatype Rect = Rect(left: real, top: real, width: real, height: real)

  /** A pointer position in normalised device coordinates. */
  datatype Ndc = Ndc(x: real, y: real)

  predicate HasArea(rect: Rect)
  {
    rect.width > 0.0 && rect.height > 0.0
  }

  predicate Inside(mouseX: real, mouseY: real, rect: Rect)
  {
    rect.left <= mouseX <= rect.left + rect.width && rect.top <= mouseY <= rect.top + rect.height
  }

  /** The pointer used for a click: the screen centre under pointer lock, else the tracked cursor. */
  function ClickNdc(locked: bool, mouseX: real, mouseY: real, rect: Rect): (p: Ndc)
    requires locked || HasArea(rect)
    ensures locked ==> p == Ndc(0.0, 0.0)
  {
    if locked then Ndc(0.0, 0.0)
    else
      var x := (mouseX - rect.left) / rect.width;
      var y := (mouseY - rect.top) / rect.height;
      Ndc(x * 2.0 - 1.0, -(y * 2.0 - 1.0))
  }

  /** The screen point an NDC pointer stands for within `rect`: the inverse of the unlocked mapping. */
  function ScreenPoint(p: Ndc, rect: Rect): (real, real)
  {
    (rect.left + (p.x + 1.0) / 2.0 * rect.width, rect.top + (1.0 - p.y) / 2.0 * rect.height)
  }

  /** The unlocked mapping loses nothing: mapping the NDC back gives the cursor position. */
  lemma NdcRoundTrip(mouseX: real, mouseY: real, rect: Rect)
    requires HasArea(rect)
    ensures ScreenPoint(ClickNdc(false, mouseX, mouseY, rect), rect) == (mouseX, mouseY)
  {
    var p := ClickNdc(false, mouseX, mouseY, rect);
    AxisRoundTrip(mouseX, rect.left, rect.width, p.x);
    AxisRoundTrip(mouseY, rect.top, rect.height, -p.y);
    assert 1.0 - p.y == -p.y + 1.0;
    var sp := ScreenPoint(p, rect);
    assert sp.0 == mouseX;
    assert sp.1 == mouseY;
  }

  lemma AxisRoundTrip(m: real, origin: real, w: real, px: real)
    requires w > 0.0 && px == (m - origin) / w * 2.0 - 1.0
    ensures origin + (px + 1.0) / 2.0 * w == m
  {
    var x := (m - origin) / w;
    assert (px + 1.0) / 2.0 == x;
    assert x * w == m - origin;
  }

  /** A cursor inside the canvas gives a pointer in [-1, 1]²; the corners map to (-1, 1) and (1, -1). */
  lemma NdcInRange(mouseX: real, mouseY: real, rect: Rect)
    requires HasArea(rect) && Inside(mouseX, mouseY, rect)
    ensures var p := ClickNdc(false, mouseX, mouseY, rect);
      -1.0 <= p.x <= 1.0 && -1.0 <= p.y <= 1.0
    ensures ClickNdc(false, rect.left, rect.top, rect) == Ndc(-1.0, 1.0)
    ensures ClickNdc(false, rect.left + rect.width, rect.top + rect.height, rect) == Ndc(1.0, -1.0)
  {
    UnitFraction(mouseX - rect.left, rect.width);
    UnitFraction(mouseY - rect.top, rect.height);
    FarEdge(rect.left, rect.width);
    FarEdge(rect.top, rect.height);
  }

  lemma UnitFraction(a: real, w: real)
    requires w > 0.0 && 0.0 <= a <= w
    ensures 0.0 <= a / w <= 1.0
  {
    assert a / w * w == a;
  }

  lemma FarEdge(origin: real, w: real)
    requires w > 0.0
    ensures (origin + w - origin) / w == 1.0
  {
    assert origin + w - origin == w;
  }

  /**
   * One object of the scene graph: its parent (`None` for a root) and its `userData.id`.
   * Objects are numbered so that every parent comes before its children.
   */
  datatype SceneNode = SceneNode(parent: Option<nat>, userId: Option<string>)

  /** Parents precede children, so parent chains are finite (a three.js graph is a tree). */
  predicate WellFormed(scene: seq<SceneNode>)
  {
    forall i :: 0 <= i < |scene| && scene[i].parent.Some? ==> scene[i].parent.value < i
  }

  /** One intersection the raycaster reports. */
  datatype Hit = Hit(distance: real, node: nat)

  predicate HitsIn(scene: seq<SceneNode>, hits: seq<Hit>)
  {
    forall i :: 0 <= i < |hits| ==> hits[i].node < |scene|
  }

  /** `intersectObjects` reports hits in increasing distance. */
  predicate SortedByDistance(hits: seq<Hit>)
  {
    forall i :: 0 <= i < |hits| - 1 ==> hits[i].distance <= hits[i + 1].distance
  }

  /** In a distance-sorted hit list the first hit is the closest one. */
  lemma {:induction false} FirstHitIsNearest(hits: seq<Hit>, k: nat)
    requires SortedByDistance(hits) && k < |hits|
    ensures hits[0].distance <= hits[k].distance
  {
    if k > 0 {
      FirstHitIsNearest(hits, k - 1);
    }
  }

  /** Hit `i` is no farther than any reported hit. */
  predicate Nearest(hits: seq<Hit>, i: nat)
    requires i < |hits|
  {
    forall k :: 0 <= k < |hits| ==> hits[i].distance <= hits[k].distance
  }

  /** The walk stops at an object whose parent is the clickables group, or that has no parent. */
  predicate StopsAt(scene: seq<SceneNode>, group: nat, n: nat)
    requires n < |scene|
  {
    scene[n].parent == None || scene[n].parent == Some(group)
  }

  /** `a` is `n` or one of the objects on `n`'s parent chain. */
  predicate AncestorOrSelf(scene: seq<SceneNode>, a: nat, n: nat)
    requires WellFormed(scene) && n < |scene|
    decreases n
  {
    a == n || (scene[n].parent.Some? && AncestorOrSelf(scene, a, scene[n].parent.value))
  }

  lemma {:induction false} AncestorIsEarlier(scene: seq<SceneNode>, a: nat, n: nat)
    requires WellFormed(scene) && n < |scene| && AncestorOrSelf(scene, a, n)
    ensures a <= n
    decreases n
  {
    if a != n {
      AncestorIsEarlier(scene, a, scene[n].parent.value);
    }
  }

  /** What the parent walk starting at `n` ends on. */
  function ClickTarget(scene: seq<SceneNode>, group: nat, n: nat): (t: nat)
    requires WellFormed(scene) && n < |scene|
    ensures t < |scene| && AncestorOrSelf(scene, t, n) && StopsAt(scene, group, t)
    decreases n
  {
    match scene[n].parent
    case None => n
    case Some(p) => if p == group then n else ClickTarget(scene, group, p)
  }

  /** The walk ends on the lowest object of the chain where it may stop: every other stopping point lies above it. */
  lemma {:induction false} ClickTargetIsLowest(scene: seq<SceneNode>, group: nat, n: nat, m: nat)
    requires WellFormed(scene) && n < |scene| && m < |scene|
    requires AncestorOrSelf(scene, m, n) && StopsAt(scene, group, m)
    ensures AncestorOrSelf(scene, m, ClickTarget(scene, group, n))
    decreases n
  {
    if m != n && !StopsAt(scene, group, n) {
      ClickTargetIsLowest(scene, group, scene[n].parent.value, m);
    }
  }

  /** A hit anywhere inside a direct child `e` of the clickables group resolves to `e`. */
  lemma {:induction false} ClickTargetOfChild(scene: seq<SceneNode>, group: nat, e: nat, n: nat)
    requires WellFormed(scene) && n < |scene| && e < |scene|
    requires AncestorOrSelf(scene, e, n) && scene[e].parent == Some(group)
    ensures ClickTarget(scene, group, n) == e
    decreases n
  {
    if n != e {
      var p := scene[n].parent.value;
      AncestorIsEarlier(scene, e, p);
      ClickTargetOfChild(scene, group, e, p);
    }
  }

  /** The `while` loop of `onClick` that climbs from the hit object to the clickable root. */
  method ResolveTarget(scene: seq<SceneNode>, group: nat, hit: nat) returns (target: nat)
    requires WellFormed(scene) && hit < |scene|
    ensures target == ClickTarget(scene, group, hit)
  {
    target := hit;
    while scene[target].parent.Some? && scene[target].parent.value != group
      invariant target < |scene|
      invariant ClickTarget(scene, group, target) == ClickTarget(scene, group, hit)
      decreases target
    {
      target := scene[target].parent.value;
    }
  }

  /** What one click does. */
  datatype Dispatch =
    | NoGroup                 // the clickables group is not mounted: return early
    | Miss                    // the ray hit nothing
    | SelectId(id: string)    // one `select(id)` call
    | WarnNoId(target: nat)   // the resolved object has no id: a warning, no selection

  /** What a click does once the nearest hit is the object `hit`: select the resolved id or warn. */
  function Resolve(scene: seq<SceneNode>, group: nat, hit: nat): (d: Dispatch)
    requires WellFormed(scene) && hit < |scene|
    ensures d.SelectId? || d.WarnNoId?
    ensures d.SelectId? ==> d.id != ""
  {
    var target := ClickTarget(scene, group, hit);
    var id := scene[target].userId;
    if Truthy(id) then SelectId(id.value) else WarnNoId(target)
  }

  /** The decision `onClick` takes for a given hit list: only the first, closest, hit is looked at. */
  function Decide(scene: seq<SceneNode>, group: Option<nat>, hits: seq<Hit>): (d: Dispatch)
    requires WellFormed(scene) && HitsIn(scene, hits)
    ensures group.None? ==> d == NoGroup
    ensures group.Some? && hits == [] ==> d == Miss
    ensures group.Some? && hits != [] ==> d == Resolve(scene, group.value, hits[0].node)
  {
    if group.None? then NoGroup
    else if hits == [] then Miss
    else Resolve(scene, group.value, hits[0].node)
  }

  /**
   * On a hit list sorted by distance, a click that reaches an object acts on the nearest
   * hit: the decision is the resolution of a hit that no other reported hit is closer than.
   */
  lemma DecidesOnNearest(scene: seq<SceneNode>, group: Option<nat>, hits: seq<Hit>)
    requires WellFormed(scene) && HitsIn(scene, hits) && SortedByDistance(hits)
    requires group.Some? && hits != []
    ensures Nearest(hits, 0)
    ensures Decide(scene, group, hits) == Resolve(scene, group.value, hits[0].node)
  {
    forall k | 0 <= k < |hits|
      ensures hits[0].distance <= hits[k].distance
    {
      FirstHitIsNearest(hits, k);
    }
  }

  /** Only the first hit matters: the rest of the list never changes the decision. */
  lemma OnlyFirstHitCounts(scene: seq<SceneNode>, group: Option<nat>, hits: seq<Hit>, others: seq<Hit>)
    requires WellFormed(scene) && HitsIn(scene, hits) && hits != [] && HitsIn(scene, others)
    ensures HitsIn(scene, [hits[0]] + others)
    ensures Decide(scene, group, hits) == Decide(scene, group, [hits[0]] + others)
  {
    assert ([hits[0]] + others)[0] == hits[0];
  }

  /** A selected id is the truthy id of the lowest stopping point above the hit object. */
  lemma SelectedIdOrigin(scene: seq<SceneNode>, group: nat, hit: nat)
    requires WellFormed(scene) && hit < |scene| && Resolve(scene, group, hit).SelectId?
    ensures var t := ClickTarget(scene, group, hit);
      AncestorOrSelf(scene, t, hit) && StopsAt(scene, group, t)
      && scene[t].userId == Some(Resolve(scene, group, hit).id)
  {
  }

  /**
   * A hit inside the clickable entity `e` (a direct child of the group) selects exactly `e`'s
   * id when it is truthy, and otherwise only warns.
   */
  lemma {:induction false} HitOnEntity(scene: seq<SceneNode>, group: nat, hit: nat, e: nat)
    requires WellFormed(scene) && hit < |scene| && e < |scene|
    requires AncestorOrSelf(scene, e, hit) && scene[e].parent == Some(group)
    ensures Resolve(scene, group, hit) ==
      if Truthy(scene[e].userId) then SelectId(scene[e].userId.value) else WarnNoId(e)
  {
    ClickTargetOfChild(scene, group, e, hit);
  }

  /** The click handler's tracked cursor, a `useRef` updated in place by `mousemove`. */
  class ClickHandler {
    var mouseX: real
    var mouseY: real

    /** The cursor starts at the window centre. */
    constructor (innerWidth: real, innerHeight: real)
      ensures mouseX == innerWidth / 2.0 && mouseY == innerHeight / 2.0
    {
      mouseX := innerWidth / 2.0;
      mouseY := innerHeight / 2.0;
    }

    /** Moves under pointer lock are ignored; otherwise the cursor position is recorded. */
    method OnMouseMove(documentLocked: bool, clientX: real, clientY: real)
      modifies this
      ensures documentLocked ==> mouseX == old(mouseX) && mouseY == old(mouseY)
      ensures !documentLocked ==> mouseX == clientX && mouseY == clientY
    {
      if documentLocked {
        return;
      }
      mouseX := clientX;
      mouseY := clientY;
    }

    /**
     * `onClick`: `intersect` is the raycaster, given the pointer, returning its hits nearest
     * first; `group` is `clickablesRef.current`. At most one `select` call is made.
     */
    method OnClick(registry: Registry, documentLocked: bool, rect: Rect, scene: seq<SceneNode>,
                   group: Option<nat>, intersect: Ndc -> seq<Hit>) returns (d: Dispatch)
      requires documentLocked || HasArea(rect)
      requires WellFormed(scene) && forall p :: HitsIn(scene, intersect(p))
      requires forall p :: SortedByDistance(intersect(p))
      modifies registry
      ensures d == Decide(scene, group, intersect(ClickNdc(documentLocked, mouseX, mouseY, rect)))
      ensures d.SelectId? || d.WarnNoId? ==>
        var hits := intersect(ClickNdc(documentLocked, mouseX, mouseY, rect));
        group.Some? && hits != [] && Nearest(hits, 0) && d == Resolve(scene, group.value, hits[0].node)
      ensures registry.selectedId ==
        if d.SelectId? then AfterSelect(old(registry.selectedId), d.id) else old(registry.selectedId)
    {
      var ndc := ClickNdc(documentLocked, mouseX, mouseY, rect);
      if group.None? {
        return NoGroup;
      }
      var hits := intersect(ndc);
      if |hits| == 0 {
        return Miss;
      }
      DecidesOnNearest(scene, group, hits);
      var target := ResolveTarget(scene, group.value, hits[0].node);
      var id := scene[target].userId;
      if Truthy(id) {
        registry.Select(id.value);
        d := SelectId(id.value);
      } else {
        d := WarnNoId(target);
      }
    }
  }
}
