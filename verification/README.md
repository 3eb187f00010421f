# Scene graph and world of a DirectX 12 side-scroller

The program is a small Direct3D 12 game. It has a player aircraft (a Raptor),
two escort Eagles and a desert background. `SceneNode` is a tree node that
owns its children. `World` has a scene-graph root and builds the scene: it
attaches `LayerCount` empty layer nodes to that root and numbers the
materials and render items. The aircraft and the background are scene nodes
too, but `World` never attaches them to the graph, so each of them stays a
lone node. Every frame `World::update` applies a bounce rule: if the
player's x lies outside [-1.8, 1.8], all three aircraft reverse their
velocities. It then updates each entity and the graph.

In the code as written, that per-frame update never moves anything (see
below). The player therefore stays at its spawn x of -1.0, so after
`buildScene` the bounce never fires. The model states the rule for every
position, which covers this case as well.

This project models that core in Dafny:

- `basics.dfy` (module `Basics`) holds a nullable-reference `Option` and a
  three-component vector `Vec3` with its sign change `Negate`.
- `scene_node.dfy` (module `SceneNodes`) models the scene graph. A class
  `SceneArena` stores every node's child list (`mChildren`) and parent link
  (`mParent`), and nodes are indices into it. A ghost field records each
  node's list of ancestors, root first. The predicate `WellFormed` says that:
  - parent links and child lists agree;
  - no child list repeats a node;
  - the ancestor lists are consistent, which makes the graph acyclic.

  attachChild and detachChild are methods proved against the value-level
  functions `Attached` and `Detached`. Lemmas prove that both keep the tree
  well formed and that detaching undoes attaching. `update` is a recursive
  method. It is proved to visit exactly the pre-order of the subtree, each
  node once.
- `world.dfy` (module `Worlds`) models `World`:
  - the bounce rule and the fixed update order of `World::update`;
  - the material indices of `World::buildMaterials`;
  - the layer nodes of `World::buildScene`, together with its render items,
    their constant-buffer numbering, the render-layer lists and each
    entity's spawn state.

Aircraft and Entity derive from SceneNode, so each entity owns one node of
the world's arena. `Entity::updateCurrent` takes different parameters from
`SceneNode::updateCurrent`, so it does not override it. A call to `update` on
an entity therefore runs the scene node's own do-nothing hook and then visits
the node's children. The model follows this, so no position changes from one
frame to the next.

The header `SceneNode.h` declares `update(GameTimer)` and `XMFLOAT3` results.
`SceneNode.cpp` defines `update(GameTimer, renderList)` and `XMVECTOR`
results. The model follows the definitions in the `.cpp` file.

## Model

| member | source | states |
|---|---|---|
| SceneNodes.SceneArena.constructor | GAME3015-Assignment1/GAME3015-Assignment1/SceneNode.cpp:6-10 | an empty arena satisfies the tree invariant |
| SceneNodes.SceneArena.NewNode | GAME3015-Assignment1/GAME3015-Assignment1/SceneNode.cpp:6-10 | a new node has no children and no parent, gets the next index, is nobody's ancestor, and leaves the other nodes unchanged |
| SceneNodes.NewNodeKeepsTree | GAME3015-Assignment1/GAME3015-Assignment1/SceneNode.cpp:6-10 | adding a parentless, childless node keeps the tree invariant |
| SceneNodes.SceneArena.AttachChild | GAME3015-Assignment1/GAME3015-Assignment1/SceneNode.cpp:12-16 | the child's parent becomes p, the child is appended to p's child list, nothing else changes, and the invariant holds afterwards |
| SceneNodes.AttachKeepsTree | GAME3015-Assignment1/GAME3015-Assignment1/SceneNode.cpp:12-16 | attaching a root under a node outside its subtree keeps the graph a forest, and the moved subtree's ancestor lists gain p's lineage |
| SceneNodes.IndexOf | GAME3015-Assignment1/GAME3015-Assignment1/SceneNode.cpp:20 | find_if by identity: the first position holding the node, or the end exactly when the node is absent |
| SceneNodes.SceneArena.FindChild | GAME3015-Assignment1/GAME3015-Assignment1/SceneNode.cpp:20 | the linear search returns the first position of the child in p's list, or the end |
| SceneNodes.SceneArena.DetachChild | GAME3015-Assignment1/GAME3015-Assignment1/SceneNode.cpp:18-27 | the caller must pass a child of p (the assert); the child is returned, its parent cleared, its one entry erased from p's list, and the invariant holds afterwards |
| SceneNodes.DetachKeepsTree | GAME3015-Assignment1/GAME3015-Assignment1/SceneNode.cpp:18-27 | detaching a child keeps the graph a forest, and the detached subtree's ancestor lists lose the old ancestors |
| SceneNodes.DetachedChildList | GAME3015-Assignment1/GAME3015-Assignment1/SceneNode.cpp:20-25 | after the erase, p's list is one shorter, the removed node is gone, every other child stays, the order is kept, and there are still no repeats |
| SceneNodes.RemoveAtMultiset | GAME3015-Assignment1/GAME3015-Assignment1/SceneNode.cpp:25 | erasing position i removes exactly one occurrence of the element stored there |
| SceneNodes.AttachDetachRoundTrip | GAME3015-Assignment1/GAME3015-Assignment1/SceneNode.cpp:12-27 | detaching a node just attached restores both the child lists and the parent links, and all ancestor lists |
| SceneNodes.RebaseRoundTrip | GAME3015-Assignment1/GAME3015-Assignment1/SceneNode.cpp:12-27 | moving a subtree under a node and back to the top gives the original ancestor lists |
| SceneNodes.AtMostOneParent | GAME3015-Assignment1/GAME3015-Assignment1/SceneNode.h:47-48 | in a well-formed arena a node is in at most one child list, the list of its recorded parent |
| SceneNodes.SceneArena.Update | GAME3015-Assignment1/GAME3015-Assignment1/SceneNode.cpp:29-33 | the nodes whose updateCurrent runs are exactly the pre-order of n's subtree |
| SceneNodes.SceneArena.UpdateCurrent | GAME3015-Assignment1/GAME3015-Assignment1/SceneNode.cpp:35-38 | the default hook visits n alone and changes nothing |
| SceneNodes.SceneArena.UpdateChildren | GAME3015-Assignment1/GAME3015-Assignment1/SceneNode.cpp:40-46 | the children's subtrees are updated one after another in child-list order |
| SceneNodes.LeafPreOrder | GAME3015-Assignment1/GAME3015-Assignment1/SceneNode.cpp:29-46 | updating a childless node visits that node only |
| SceneNodes.PreOrderIsSubtree | GAME3015-Assignment1/GAME3015-Assignment1/SceneNode.cpp:29-46 | a node is visited by update(n) if and only if it is n or n is one of its ancestors |
| SceneNodes.PreOrderDistinct | GAME3015-Assignment1/GAME3015-Assignment1/SceneNode.cpp:29-46 | update(n) visits no node twice |
| SceneNodes.WorldPositionIgnoresTree | GAME3015-Assignment1/GAME3015-Assignment1/SceneNode.cpp:69-82 | the functions SceneArena.WorldPosition (getWorldPosition, which forwards to getWorldTransform) and SceneArena.WorldTransform (getWorldTransform, whose ancestor walk is commented out) return (1, 1, 1) for every node of every arena, whatever its ancestors |
| Worlds.LayerSlot | GAME3015-Assignment1/GAME3015-Assignment1/World.h:23-30 | every render layer indexes a slot inside the RitemLayer array |
| Worlds.World.constructor | GAME3015-Assignment1/GAME3015-Assignment1/World.cpp:3-8 | the world starts with four new entity objects and five distinct lone nodes with no parent and no children: the scene root (0), the background (1), the Raptor player (2) and the two Eagle escorts (3 and 4) |
| Worlds.NewLoneNodes | GAME3015-Assignment1/GAME3015-Assignment1/World.h:102-113 | the scene graph, the background and the three aircraft are five distinct parentless, childless nodes numbered 0 to 4 |
| Worlds.World.Bounce | GAME3015-Assignment1/GAME3015-Assignment1/World.cpp:13-18 | when the player's x is beyond 1.8 or below -1.8, all three aircraft reverse their velocities; inside the lane, bounds included, no velocity changes |
| Worlds.World.Update | GAME3015-Assignment1/GAME3015-Assignment1/World.cpp:11-35 | the bounce rule comes first, then the player, the left escort, the right escort, the background and the whole scene graph are updated, in that order |
| Worlds.World.UpdateAll | GAME3015-Assignment1/GAME3015-Assignment1/World.cpp:20-34 | the update calls run the lone entity nodes and then the scene graph's pre-order |
| Worlds.World.BuildMaterials | GAME3015-Assignment1/GAME3015-Assignment1/World.cpp:70-104 | the background, Eagle and Raptor materials get indices 0, 1 and 2 for both their constant buffer and their texture, under their three keys; other entries are kept |
| Worlds.World.BuildLayers | GAME3015-Assignment1/GAME3015-Assignment1/World.cpp:113-120 | LayerCount new nodes are appended to the root's children in order and recorded in mSceneLayers |
| Worlds.World.AddLayer | GAME3015-Assignment1/GAME3015-Assignment1/World.cpp:116-119 | one pass of the loop: a fresh node is recorded in its slot and attached to the root |
| Worlds.PlaceRenderItem | GAME3015-Assignment1/GAME3015-Assignment1/World.cpp:122-139 | an entity gets its spawn state, its render item is pushed onto the render list and filed under its layer, and its renderIndex is the item's position |
| Worlds.World.BuildRenderItems | GAME3015-Assignment1/GAME3015-Assignment1/World.cpp:111-201 | four render items with objCBIndex 0 to 3 are pushed in the order background, player, left escort, right escort; the background goes to the Opaque layer and the aircraft to AlphaTested |
| Worlds.World.BuildScene | GAME3015-Assignment1/GAME3015-Assignment1/World.cpp:106-205 | the layer nodes, the four render items with their indices and layers, and every entity's spawn position, velocity and scale |

## Left out

- Entity kinematics (`Entity::updateCurrent`, velocity times dt) are left out: the hook is not reached through `update`, and `GameTimer` is a clock, so `dt` is dropped.
- Worlds.World.Update: positions never change, because the source's `update` reaches no movement code. `Entity::updateCurrent` is never called, as the line above explains, and the kinematics it holds are left out.
- Texture loading (`World::loadTextures`) reads files on the GPU device and is left out.
- Worlds.World.BuildMaterials: the materials' colour, Fresnel and roughness constants are floating point and are not modelled; only names and indices are.
- Worlds.World.BuildScene: the world and texture matrices, geometry pointers and draw arguments of each render item are left out; an item is its objCBIndex and material key.
- Render-layer lists hold positions in the render list instead of raw `RenderItem*` pointers.
- `SceneNode::draw`, `drawCurrent`, `drawChildren` and `World::draw` have empty or commented-out bodies and are left out.
- `background2`, `Game.cpp` and the Direct3D set-up are outside the scene-graph core and are left out.
- SceneNodes.SceneArena.AttachChild: requires that the child has no parent, that it is not p, and that it is not an ancestor of p. The first condition holds by construction, because the source's `unique_ptr` argument carries sole ownership of a subtree that nobody else owns. The other two rule out a programmer error that the source does not guard against. Attaching a node to itself or to its own descendant makes an owning cycle: it leaks, and `update` on any node of the cycle recurses forever. The model covers only acyclic graphs, where `update` terminates.
- Fields the C++ leaves uninitialised (velocities before buildScene, `mSceneLayers` before the loop) start at zero and `None` in the model.
- Floating point is not modelled. The model uses exact reals for the lane bound 1.8, which the source compares as a `float` against a `double` literal. It also uses exact reals for the `float` spawn positions, velocities and scales of `World::buildScene` (for example `0.01f`, `-0.5f` and `-1.25f`), so it does not capture their rounding.
- Node destruction is not modelled: the arena never frees a node. In the source, dropping the `Ptr` that `detachChild` returns destroys the detached subtree, and destroying a node destroys its children with it. In the model a detached subtree stays in the arena as a tree of its own.
