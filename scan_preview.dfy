/**
 * The scan preview screen's scene bookkeeping: resetting the scene when the view appears,
 * and attaching the reconstructed mesh, centred on its own vertical axis and driven by the
 * repeating dissolve action, when the meshing engine completes.
 */
module ScanPreview {

  import opened Wrappers
  import opened Geometry
  import opened SceneGraph
  import opened RevealTimeline

  /** The error slot of the meshing engine's completion (opaque). */
  datatype MeshingError = MeshingError(code: int)

  /** The pivot translation that makes a node rotate about the vertical axis through the
      X/Z centre of its bounding box, at height 0. */
  function CenteredPivot(b: Box): (p: Vec3)
    ensures p.y == 0.0
    ensures p.x - b.min.x == b.max.x - p.x
    ensures p.z - b.min.z == b.max.z - p.z
    ensures b.min.x <= b.max.x ==> b.min.x <= p.x <= b.max.x
    ensures b.min.z <= b.max.z ==> b.min.z <= p.z <= b.max.z
  {
    Vec3((b.min.x + b.max.x) * 0.5, 0.0, (b.min.z + b.max.z) * 0.5)
  }

  /** One step of the repeating dissolve action on a node: at global time `time` since the
      action started, the closure writes the reveal parameter of the current run. */
  method RunDissolveAction(node: SceneNode, time: real)
    requires node.dissolving
    modifies node
    ensures node.revealParam == Reveal(LoopElapsed(time))
    ensures 0.0 <= node.revealParam <= 1.0
    ensures node.children == old(node.children) && node.pivot == old(node.pivot)
    ensures node.content == old(node.content) && node.name == old(node.name) && node.dissolving
  {
    var e := LoopElapsed(time);
    node.revealParam := Reveal(e);
  }

  class PreviewController {
    /** The root node of the scene view's scene. */
    const root: SceneNode
    /** `_containerNode`: where reconstructed meshes are attached. */
    var container: SceneNode
    /** `_mesh`: the last mesh delivered by the engine. */
    var mesh: Option<Mesh>

    ghost predicate Valid()
      reads this
    {
      container != root
    }

    /** The stored property initialisers: a detached, empty container and no mesh. */
    constructor (root: SceneNode)
      ensures Valid() && this.root == root && mesh == None
      ensures fresh(container) && container.children == [] && container.content == Empty
    {
      this.root := root;
      container := new SceneNode(Empty);
      mesh := None;
    }

    /** viewWillAppear: every child of the root is removed from it, then a fresh container
        is created and becomes the root's only child. */
    method ViewWillAppear()
      requires Valid()
      modifies this, root
      ensures Valid()
      ensures fresh(container) && container.children == [] && container.content == Empty
      ensures root.children == [container]
      ensures root.Attrs() == old(root.Attrs())
      ensures mesh == old(mesh)
    {
      var kids := root.children;
      var i := 0;
      while i < |kids|
        invariant 0 <= i <= |kids|
        invariant forall k :: 0 <= k < |root.children| ==> root.children[k] in kids[i..]
        invariant root.Attrs() == old(root.Attrs())
        modifies root
      {
        root.children := RemoveChild(root.children, kids[i]);
        i := i + 1;
      }
      container := new SceneNode(Empty);
      root.children := AddChild(root.children, container);
    }

    /** The completion handler of reconstructMesh, with its hop to the main queue taken as one
        step. On an error nothing changes. With a mesh, one new node is appended to the
        container and the mesh is remembered; then, when the node has geometry, its pivot is
        set to the X/Z centre of the bounding box and the dissolve starts. `added` is the new
        node, or null when none was made. */
    method CompleteMeshing(error: Option<MeshingError>, scMesh: Option<Mesh>) returns (added: SceneNode?)
      requires Valid()
      modifies this, container
      ensures Valid() && container == old(container)
      ensures root.children == old(root.children) && root.Attrs() == old(root.Attrs())
      ensures container.Attrs() == old(container.Attrs())
      ensures error.Some? || scMesh.None? ==>
        && added == null && mesh == old(mesh)
        && container.children == old(container.children)
      ensures error.None? && scMesh.Some? ==>
        && added != null && fresh(added)
        && container.children == old(container.children) + [added]
        && mesh == scMesh
        && added.content == MeshGeometry(scMesh.value)
        && added.children == [] && added.name == "" && added.revealParam == 0.0
        && (scMesh.value.bounds.Some? ==>
              added.pivot == CenteredPivot(scMesh.value.bounds.value) && added.dissolving)
        && (scMesh.value.bounds.None? ==>
              added.pivot == Vec3(0.0, 0.0, 0.0) && !added.dissolving)
    {
      added := null;
      if error.Some? {
        return;
      }
      if scMesh.Some? {
        var m := scMesh.value;
        var node := new SceneNode(MeshGeometry(m));
        container.children := AddChild(container.children, node);
        added := node;
        mesh := scMesh;
        if m.bounds.None? {
          return;
        }
        node.pivot := CenteredPivot(m.bounds.value);
        node.dissolving := true;
      }
    }
  }
}
