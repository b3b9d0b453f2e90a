/**
 * The slice of SceneKit's node graph that the two view controllers touch: a node's ordered
 * child list, its name, its pivot, what it displays, and the shader parameter of the dissolve.
 */
module SceneGraph {

  import opened Wrappers
  import opened Geometry

  /** A reconstructed mesh, as the meshing engine hands it over (opaque apart from the
      bounding box of the geometry that buildMeshNode gives its node, which may be missing). */
  datatype Mesh = Mesh(id: nat, bounds: Option<Box>)

  /** One frame of a recorded point-cloud sequence (opaque). */
  datatype PointCloud = PointCloud(id: nat)

  /** What a node draws. */
  datatype Content = Empty | MeshGeometry(mesh: Mesh) | PointCloudGeometry(cloud: PointCloud)

  /** Everything a node holds apart from its child list. */
  datatype Attributes = Attributes(name: string, pivot: Vec3, content: Content, dissolving: bool, revealParam: real)

  class SceneNode {
    var children: seq<SceneNode>
    var name: string
    /** The translation of the node's pivot matrix (identity = zero translation). */
    var pivot: Vec3
    var content: Content
    /** True once the dissolve shader modifier is attached and the repeating action runs. */
    var dissolving: bool
    /** The x component of the shader argument `param`: the current reveal parameter. */
    var revealParam: real

    /** SCNNode(): no children, no name, identity pivot. */
    constructor (content: Content)
      ensures children == [] && name == "" && pivot == Vec3(0.0, 0.0, 0.0)
      ensures this.content == content && !dissolving && revealParam == 0.0
    {
      children := [];
      name := "";
      pivot := Vec3(0.0, 0.0, 0.0);
      this.content := content;
      dissolving := false;
      revealParam := 0.0;
    }

    /** The node's attributes other than its children, for stating what an operation keeps. */
    function Attrs(): (a: Attributes)
      reads this
    {
      Attributes(name, pivot, content, dissolving, revealParam)
    }
  }

  /** No node occurs twice in a child list: SceneKit keeps each node under one parent once. */
  predicate NoDup<T(==)>(s: seq<T>)
  {
    forall i, j :: 0 <= i < j < |s| ==> s[i] != s[j]
  }

  /** The child list after `n.removeFromParentNode()` when `n`'s parent owns this list. */
  function RemoveChild<T(==)>(s: seq<T>, n: T): (r: seq<T>)
    ensures forall i :: 0 <= i < |r| ==> r[i] in s && r[i] != n
    ensures forall i :: 0 <= i < |s| && s[i] != n ==> s[i] in r
    ensures |r| <= |s|
    ensures n !in s ==> r == s
    ensures NoDup(s) ==> NoDup(r)
  {
    if s == [] then []
    else if s[0] == n then RemoveChild(s[1..], n)
    else [s[0]] + RemoveChild(s[1..], n)
  }

  /** The child list after `addChildNode(n)`: SceneKit first detaches `n` from its parent
      (here, possibly this list) and then appends it. */
  function AddChild<T(==)>(s: seq<T>, n: T): (r: seq<T>)
    ensures forall i :: 0 <= i < |r| ==> r[i] in s || r[i] == n
    ensures forall i :: 0 <= i < |s| ==> s[i] in r
    ensures |r| > 0 && r[|r| - 1] == n
    ensures n !in s ==> r == s + [n]
    ensures NoDup(s) ==> NoDup(r)
  {
    RemoveChild(s, n) + [n]
  }
}
