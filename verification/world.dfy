/**
 * The World driver: the aircraft formation, the background, the scene-graph
 * root with its layer nodes, and the per-tick rules.
 *
 * The player, the two escorts and the background are SceneNodes themselves
 * (Aircraft and Entity derive from SceneNode), so each one owns a node of the
 * world's arena; `update` on any of them is SceneArena.Update on that node.
 */
module Worlds {
  import opened Basics
  import opened SceneNodes

  /** World::Layer is { Background, Air, LayerCount }. */
  const LayerCount: nat := 2

  /** The render layers the draw code keeps one list of render items for. */
  datatype RenderLayer = Opaque | Transparent | AlphaTested | AlphaTestedTreeSprites

  /** RenderLayer::Count. */
  const RenderLayerCount: nat := 4

  /** The position of a render layer in the RitemLayer array. */
  function LayerSlot(l: RenderLayer): (i: nat)
    ensures i < RenderLayerCount
  {
    match l
    case Opaque => 0
    case Transparent => 1
    case AlphaTested => 2
    case AlphaTestedTreeSprites => 3
  }

  /** The half-width of the lane the formation flies in. */
  const LaneBound: real := 1.8

  /** The bounce test of World::update on the player's x coordinate. */
  predicate OutOfLane(x: real)
  {
    x > LaneBound || x < -LaneBound
  }

  datatype AircraftType = Eagle | Raptor

  datatype EntityKind = Scenery | Aircraft(model: AircraftType)

  /** A material's name and its two indices; its colour constants are not modelled. */
  datatype Material = Material(name: string, matCBIndex: int, diffuseSrvHeapIndex: int)

  /** A render item's object constant-buffer index and the key of its material. */
  datatype RenderItem = RenderItem(objCBIndex: nat, mat: string)

  /** An Entity: a scene node that carries a position, a velocity, a scale and a render item. */
  class Entity {
    const node: NodeId
    const kind: EntityKind
    var position: Vec3
    var velocity: Vec3
    var scale: Vec3
    var renderIndex: nat

    constructor (node: NodeId, kind: EntityKind)
      ensures this.node == node && this.kind == kind
      ensures position == velocity == scale == Vec3(0.0, 0.0, 0.0) && renderIndex == 0
    {
      this.node := node;
      this.kind := kind;
      position, velocity, scale := Vec3(0.0, 0.0, 0.0), Vec3(0.0, 0.0, 0.0), Vec3(0.0, 0.0, 0.0);
      renderIndex := 0;
    }
  }

  /**
   * One block of World::buildScene: give e its spawn state, file its render
   * item under `layer`, push the item onto the render list and record where.
   */
  method PlaceRenderItem(e: Entity, position: Vec3, velocity: Vec3, scale: Vec3,
                         objCBIndex: nat, mat: string, layer: RenderLayer,
                         renderList: seq<RenderItem>, ritemLayer: seq<seq<nat>>)
    returns (renderList': seq<RenderItem>, ritemLayer': seq<seq<nat>>)
    requires |ritemLayer| == RenderLayerCount
    modifies e
    ensures e.position == position && e.velocity == velocity && e.scale == scale
    ensures renderList' == renderList + [RenderItem(objCBIndex, mat)]
    ensures e.renderIndex == |renderList| && renderList'[e.renderIndex] == RenderItem(objCBIndex, mat)
    ensures ritemLayer' == ritemLayer[LayerSlot(layer) := ritemLayer[LayerSlot(layer)] + [e.renderIndex]]
  {
    e.position, e.velocity, e.scale := position, velocity, scale;
    var item := RenderItem(objCBIndex, mat);
    ritemLayer' := ritemLayer[LayerSlot(layer) := ritemLayer[LayerSlot(layer)] + [|renderList|]];
    renderList' := renderList + [item];
    e.renderIndex := |renderList'| - 1;
  }

  /** The five nodes a World starts with, in order: the scene root, the background and the three aircraft. */
  method NewLoneNodes() returns (g: SceneArena)
    ensures fresh(g) && g.Valid()
    ensures g.children == [[], [], [], [], []] && g.parent == [None, None, None, None, None]
  {
    g := new SceneArena();
    var r := g.NewNode();
    assert r == 0 && g.children == [[]] && g.parent == [None];
    var b := g.NewNode();
    assert b == 1 && g.children == [[], []] && g.parent == [None, None];
    var p := g.NewNode();
    assert p == 2 && g.children == [[], [], []] && g.parent == [None, None, None];
    var l := g.NewNode();
    assert l == 3 && g.children == [[], [], [], []] && g.parent == [None, None, None, None];
    var rp := g.NewNode();
    assert rp == 4;
  }

  /** The child lists after the nodes of `added` are appended to root's list as new, childless nodes. */
  ghost function Layered(c0: seq<seq<NodeId>>, root: NodeId, added: seq<NodeId>): (r: seq<seq<NodeId>>)
    requires root < |c0|
    ensures |r| == |c0| + |added| && r[root] == c0[root] + added
  {
    c0[root := c0[root] + added] + seq(|added|, _ => [])
  }

  /** The parent links after k new nodes are given the parent root. */
  ghost function Linked(p0: seq<Option<NodeId>>, root: NodeId, k: nat): (r: seq<Option<NodeId>>)
    ensures |r| == |p0| + k && r[..|p0|] == p0
  {
    p0 + seq(k, _ => Some(root))
  }

  /** Before the layer loop nothing has been added. */
  lemma LayeredStart(c0: seq<seq<NodeId>>, p0: seq<Option<NodeId>>, root: NodeId)
    requires root < |c0|
    ensures Layered(c0, root, []) == c0 && Linked(p0, root, 0) == p0
  {
    assert c0[root] + [] == c0[root];
  }

  /** One pass of the layer loop: a new node attached to root extends both pictures by one. */
  lemma LayeredStep(c0: seq<seq<NodeId>>, p0: seq<Option<NodeId>>, root: NodeId, added: seq<NodeId>, layer: NodeId)
    requires root < |c0|
    ensures var before := Layered(c0, root, added);
      before[root := before[root] + [layer]] + [[]] == Layered(c0, root, added + [layer])
    ensures Linked(p0, root, |added|) + [Some(root)] == Linked(p0, root, |added| + 1)
  {
    var a := c0[root := c0[root] + added];
    var before := Layered(c0, root, added);
    assert before[root := c0[root] + added + [layer]] == a[root := c0[root] + added + [layer]] + seq(|added|, _ => []);
    assert c0[root] + added + [layer] == c0[root] + (added + [layer]);
    var empties: seq<seq<NodeId>> := seq(|added| + 1, _ => []);
    assert seq(|added|, _ => []) + [[]] == empties;
  }

  class World {
    /** Every SceneNode of the world. */
    const graph: SceneArena
    /** mSceneGraph. */
    const root: NodeId
    /** mSceneLayers: a raw pointer per layer, null until buildScene. */
    var sceneLayers: seq<Option<NodeId>>
    /** mPlane, leftPlane, rightPlane and background. */
    const player: Entity
    const leftPlane: Entity
    const rightPlane: Entity
    const background: Entity

    ghost predicate Valid()
      reads this, graph, player, leftPlane, rightPlane, background
    {
      && graph.Valid()
      && |sceneLayers| == LayerCount
      && root < |graph.children|
      && player != leftPlane && player != rightPlane && leftPlane != rightPlane
      && background != player && background != leftPlane && background != rightPlane
      && player.node != leftPlane.node && player.node != rightPlane.node && leftPlane.node != rightPlane.node
      && background.node != player.node && background.node != leftPlane.node && background.node != rightPlane.node
      && LoneNode(player) && LoneNode(leftPlane) && LoneNode(rightPlane) && LoneNode(background)
    }

    /** e's node is in the arena, is not the scene root, and has no children. */
    ghost predicate LoneNode(e: Entity)
      reads this, graph, e
    {
      e.node < |graph.children| && e.node != root && graph.children[e.node] == []
    }

    /** World::World: the scene root, the background and the three aircraft, each a lone node. */
    constructor ()
      ensures Valid() && fresh(graph)
      ensures fresh(player) && fresh(leftPlane) && fresh(rightPlane) && fresh(background)
      ensures graph.children == [[], [], [], [], []] && graph.parent == [None, None, None, None, None]
      ensures sceneLayers == [None, None]
      ensures root == 0 && background.node == 1 && player.node == 2 && leftPlane.node == 3 && rightPlane.node == 4
      ensures player.kind == Aircraft(Raptor) && background.kind == Scenery
      ensures leftPlane.kind == Aircraft(Eagle) && rightPlane.kind == Aircraft(Eagle)
    {
      var g := NewLoneNodes();
      var r, b, p, l, rp := 0, 1, 2, 3, 4;
      graph, root := g, r;
      background := new Entity(b, Scenery);
      player := new Entity(p, Aircraft(Raptor));
      leftPlane := new Entity(l, Aircraft(Eagle));
      rightPlane := new Entity(rp, Aircraft(Eagle));
      sceneLayers := [None, None];
    }

    /**
     * The bounce rule of World::update: when the player has left the lane,
     * the player and both escorts reverse, all in the same step; inside the
     * lane (bounds included) no velocity changes.
     */
    method Bounce()
      requires Valid()
      modifies player`velocity, leftPlane`velocity, rightPlane`velocity
      ensures Valid()
      ensures OutOfLane(player.position.x) ==>
        && player.velocity == Negate(old(player.velocity))
        && leftPlane.velocity == Negate(old(leftPlane.velocity))
        && rightPlane.velocity == Negate(old(rightPlane.velocity))
      ensures !OutOfLane(player.position.x) ==>
        && player.velocity == old(player.velocity)
        && leftPlane.velocity == old(leftPlane.velocity)
        && rightPlane.velocity == old(rightPlane.velocity)
    {
      if player.position.x > LaneBound || player.position.x < -LaneBound {
        player.velocity := Negate(player.velocity);
        leftPlane.velocity := Negate(leftPlane.velocity);
        rightPlane.velocity := Negate(rightPlane.velocity);
      }
    }

    /**
     * World::update: the bounce rule first; then the player, the escorts,
     * the background and the scene graph are updated, in that order. `log`
     * lists the nodes whose updateCurrent ran, in order.
     */
    method Update() returns (log: seq<NodeId>)
      requires Valid()
      modifies player`velocity, leftPlane`velocity, rightPlane`velocity
      ensures Valid()
      ensures OutOfLane(player.position.x) ==>
        && player.velocity == Negate(old(player.velocity))
        && leftPlane.velocity == Negate(old(leftPlane.velocity))
        && rightPlane.velocity == Negate(old(rightPlane.velocity))
      ensures !OutOfLane(player.position.x) ==>
        && player.velocity == old(player.velocity)
        && leftPlane.velocity == old(leftPlane.velocity)
        && rightPlane.velocity == old(rightPlane.velocity)
      ensures log == [player.node, leftPlane.node, rightPlane.node, background.node]
                     + PreOrder(graph.State(), graph.paths, root)
    {
      Bounce();
      log := UpdateAll();
    }

    /** The update calls of World::update, in their fixed order. */
    method UpdateAll() returns (log: seq<NodeId>)
      requires Valid()
      ensures log == [player.node, leftPlane.node, rightPlane.node, background.node]
                     + PreOrder(graph.State(), graph.paths, root)
    {
      var f, ps := graph.State(), graph.paths;
      LeafPreOrder(f, ps, player.node);
      LeafPreOrder(f, ps, leftPlane.node);
      LeafPreOrder(f, ps, rightPlane.node);
      LeafPreOrder(f, ps, background.node);
      log := graph.Update(player.node);
      var t := graph.Update(leftPlane.node);
      log := log + t;
      t := graph.Update(rightPlane.node);
      log := log + t;
      t := graph.Update(background.node);
      log := log + t;
      t := graph.Update(root);
      log := log + t;
    }

    /**
     * World::buildMaterials: Background, Eagle and Raptor get the indices
     * 0, 1 and 2, each used for both its constant buffer and its texture.
     */
    method BuildMaterials(materials: map<string, Material>) returns (materials': map<string, Material>)
      ensures materials'.Keys == materials.Keys + {"BackgroundTex", "EagleTex", "RaptorTex"}
      ensures forall k :: k in materials && k !in {"BackgroundTex", "EagleTex", "RaptorTex"} ==>
        materials'[k] == materials[k]
      ensures materials'["BackgroundTex"] == Material("BackgroundTex", 0, 0)
      ensures materials'["EagleTex"] == Material("Eagle", 1, 1)
      ensures materials'["RaptorTex"] == Material("Raptor", 2, 2)
    {
      var matIndex := 0;
      var backgroundTex := Material("BackgroundTex", matIndex, matIndex);
      matIndex := matIndex + 1;
      var eagle := Material("Eagle", matIndex, matIndex);
      matIndex := matIndex + 1;
      var raptor := Material("Raptor", matIndex, matIndex);
      matIndex := matIndex + 1;
      materials' := materials["BackgroundTex" := backgroundTex];
      materials' := materials'["EagleTex" := eagle];
      materials' := materials'["RaptorTex" := raptor];
    }

    /**
     * World::buildScene: attach LayerCount new layer nodes to the root and
     * record them in mSceneLayers, then give the background and the three
     * aircraft their spawn state and one render item each, numbering the
     * items' object constant buffers 0, 1, 2, 3 in that order.
     */
    method BuildScene(renderList: seq<RenderItem>, ritemLayer: seq<seq<nat>>)
      returns (renderList': seq<RenderItem>, ritemLayer': seq<seq<nat>>)
      requires Valid() && |ritemLayer| == RenderLayerCount
      modifies this`sceneLayers, graph, player, leftPlane, rightPlane, background
      ensures Valid()
      ensures var n0 := |old(graph.children)|;
        && sceneLayers == seq(LayerCount, k => Some(n0 + k))
        && graph.children == Layered(old(graph.children), root, seq(LayerCount, k => n0 + k))
        && graph.parent == Linked(old(graph.parent), root, LayerCount)
      ensures renderList' == renderList + [RenderItem(0, "BackgroundTex"), RenderItem(1, "RaptorTex"),
                                           RenderItem(2, "EagleTex"), RenderItem(3, "EagleTex")]
      ensures forall k :: |renderList| <= k < |renderList'| ==> renderList'[k].objCBIndex == k - |renderList|
      ensures background.renderIndex == |renderList| && player.renderIndex == |renderList| + 1
      ensures leftPlane.renderIndex == |renderList| + 2 && rightPlane.renderIndex == |renderList| + 3
      ensures ritemLayer' == ritemLayer[LayerSlot(Opaque) := ritemLayer[LayerSlot(Opaque)] + [background.renderIndex]]
                                       [LayerSlot(AlphaTested) := ritemLayer[LayerSlot(AlphaTested)]
                                          + [player.renderIndex, leftPlane.renderIndex, rightPlane.renderIndex]]
      ensures background.position == Vec3(0.0, 0.0, 0.0) && background.velocity == Vec3(0.0, 0.0, -0.5)
      ensures player.position == Vec3(-1.0, 1.0, -1.0) && player.velocity == Vec3(0.5, 0.0, 0.0)
      ensures leftPlane.position == Vec3(-1.25, 1.0, -1.25) && leftPlane.velocity == Vec3(0.5, 0.0, 0.0)
      ensures rightPlane.position == Vec3(-0.75, 1.0, -1.25) && rightPlane.velocity == Vec3(0.5, 0.0, 0.0)
      ensures background.scale == Vec3(1.0, 1.0, 1.0)
      ensures player.scale == leftPlane.scale == rightPlane.scale == Vec3(0.01, 0.01, 0.01)
    {
      BuildLayers();
      renderList', ritemLayer' := BuildRenderItems(renderList, ritemLayer);
    }

    /** The layer loop of World::buildScene. */
    method BuildLayers()
      requires Valid()
      modifies this`sceneLayers, graph
      ensures Valid()
      ensures var n0 := |old(graph.children)|;
        && sceneLayers == seq(LayerCount, k => Some(n0 + k))
        && graph.children == Layered(old(graph.children), root, seq(LayerCount, k => n0 + k))
        && graph.parent == Linked(old(graph.parent), root, LayerCount)
    {
      var n0 := |graph.children|;
      var i := 0;
      ghost var added: seq<NodeId> := [];
      ghost var c0, p0 := graph.children, graph.parent;
      LayeredStart(c0, p0, root);
      while i < LayerCount
        invariant Valid() && 0 <= i <= LayerCount && |added| == i
        invariant forall k :: 0 <= k < i ==> added[k] == n0 + k
        invariant forall k :: 0 <= k < i ==> sceneLayers[k] == Some(n0 + k)
        invariant graph.children == Layered(c0, root, added)
        invariant graph.parent == Linked(p0, root, i)
      {
        var layer := AddLayer(i);
        LayeredStep(c0, p0, root, added, layer);
        added := added + [layer];
        i := i + 1;
      }
      assert added == seq(LayerCount, k => n0 + k);
      assert sceneLayers == seq(LayerCount, k => Some(n0 + k));
    }

    /** One pass of the layer loop: a new node, recorded in slot i and attached to the root. */
    method AddLayer(i: nat) returns (layer: NodeId)
      requires Valid() && i < |sceneLayers|
      modifies this`sceneLayers, graph
      ensures Valid() && layer == |old(graph.children)|
      ensures graph.children == old(graph.children)[root := old(graph.children[root]) + [layer]] + [[]]
      ensures graph.parent == old(graph.parent) + [Some(root)]
      ensures sceneLayers == old(sceneLayers)[i := Some(layer)]
    {
      layer := graph.NewNode();
      sceneLayers := sceneLayers[i := Some(layer)];
      graph.AttachChild(root, layer);
    }

    /** The four render-item blocks of World::buildScene, with the objCBIndex counter. */
    method BuildRenderItems(renderList: seq<RenderItem>, ritemLayer: seq<seq<nat>>)
      returns (renderList': seq<RenderItem>, ritemLayer': seq<seq<nat>>)
      requires Valid() && |ritemLayer| == RenderLayerCount
      modifies player, leftPlane, rightPlane, background
      ensures Valid()
      ensures renderList' == renderList + [RenderItem(0, "BackgroundTex"), RenderItem(1, "RaptorTex"),
                                           RenderItem(2, "EagleTex"), RenderItem(3, "EagleTex")]
      ensures forall k :: |renderList| <= k < |renderList'| ==> renderList'[k].objCBIndex == k - |renderList|
      ensures background.renderIndex == |renderList| && player.renderIndex == |renderList| + 1
      ensures leftPlane.renderIndex == |renderList| + 2 && rightPlane.renderIndex == |renderList| + 3
      ensures ritemLayer' == ritemLayer[LayerSlot(Opaque) := ritemLayer[LayerSlot(Opaque)] + [background.renderIndex]]
                                       [LayerSlot(AlphaTested) := ritemLayer[LayerSlot(AlphaTested)]
                                          + [player.renderIndex, leftPlane.renderIndex, rightPlane.renderIndex]]
      ensures background.position == Vec3(0.0, 0.0, 0.0) && background.velocity == Vec3(0.0, 0.0, -0.5)
      ensures player.position == Vec3(-1.0, 1.0, -1.0) && player.velocity == Vec3(0.5, 0.0, 0.0)
      ensures leftPlane.position == Vec3(-1.25, 1.0, -1.25) && leftPlane.velocity == Vec3(0.5, 0.0, 0.0)
      ensures rightPlane.position == Vec3(-0.75, 1.0, -1.25) && rightPlane.velocity == Vec3(0.5, 0.0, 0.0)
      ensures background.scale == Vec3(1.0, 1.0, 1.0)
      ensures player.scale == leftPlane.scale == rightPlane.scale == Vec3(0.01, 0.01, 0.01)
    {
      var objCBIndex: nat := 0;
      var list, layers := renderList, ritemLayer;
      list, layers := PlaceRenderItem(background, Vec3(0.0, 0.0, 0.0), Vec3(0.0, 0.0, -0.5), Vec3(1.0, 1.0, 1.0),
                                      objCBIndex, "BackgroundTex", Opaque, list, layers);
      objCBIndex := objCBIndex + 1;
      list, layers := PlaceRenderItem(player, Vec3(-1.0, 1.0, -1.0), Vec3(0.5, 0.0, 0.0), Vec3(0.01, 0.01, 0.01),
                                      objCBIndex, "RaptorTex", AlphaTested, list, layers);
      objCBIndex := objCBIndex + 1;
      list, layers := PlaceRenderItem(leftPlane, Vec3(-1.25, 1.0, -1.25), Vec3(0.5, 0.0, 0.0), Vec3(0.01, 0.01, 0.01),
                                      objCBIndex, "EagleTex", AlphaTested, list, layers);
      objCBIndex := objCBIndex + 1;
      list, layers := PlaceRenderItem(rightPlane, Vec3(-0.75, 1.0, -1.25), Vec3(0.5, 0.0, 0.0), Vec3(0.01, 0.01, 0.01),
                                      objCBIndex, "EagleTex", AlphaTested, list, layers);
      objCBIndex := objCBIndex + 1;
      assert layers[LayerSlot(AlphaTested)] == ritemLayer[LayerSlot(AlphaTested)]
        + [player.renderIndex, leftPlane.renderIndex, rightPlane.renderIndex];
      renderList', ritemLayer' := list, layers;
    }
  }
}
