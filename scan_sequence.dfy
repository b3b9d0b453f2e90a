/**
 * Playback of a recorded point-cloud sequence: a tap starts a self-rescheduling chain of
 * loads, each load shows the next frame or rewinds the accumulator at the end, and the
 * displayed frame node replaces the previous one under the scene root.
 */
module ScanSequence {

  import opened Wrappers
  import opened SceneGraph

  // ---------------------------------------------------------------------------------------
  // The depth-data accumulator, abstractly
  // ---------------------------------------------------------------------------------------

  /** The accumulator's recorded frames and its read cursor. Its implementation is not part of
      this model: LoadNext and ResetNext state the behaviour the controller relies on. */
  datatype Accumulator = Accumulator(frames: seq<PointCloud>, cursor: nat)

  datatype Loaded = Loaded(frame: Option<PointCloud>, next: Accumulator)

  /** loadNextPointCloud: the frame under the cursor, moving the cursor on; nothing once the
      cursor has passed the last frame. */
  function LoadNext(a: Accumulator): (r: Loaded)
    ensures r.next.frames == a.frames
    ensures a.cursor < |a.frames| ==> r.frame == Some(a.frames[a.cursor]) && r.next.cursor == a.cursor + 1
    ensures |a.frames| <= a.cursor ==> r.frame == None && r.next == a
  {
    if a.cursor < |a.frames| then Loaded(Some(a.frames[a.cursor]), a.(cursor := a.cursor + 1))
    else Loaded(None, a)
  }

  /** resetNextPointCloud: the next load starts again at the first frame. */
  function ResetNext(a: Accumulator): (r: Accumulator)
    ensures r.frames == a.frames && r.cursor == 0
    ensures LoadNext(r).frame == if a.frames == [] then None else Some(a.frames[0])
  {
    a.(cursor := 0)
  }

  // ---------------------------------------------------------------------------------------
  // The auto-advancing chain, one completed load at a time
  // ---------------------------------------------------------------------------------------

  /** What the chain's state is between two loads: the accumulator and the displayed frame. */
  datatype Playback = Playback(acc: Accumulator, shown: Option<PointCloud>)

  /** One completed load: a frame replaces the displayed one; no frame rewinds the cursor and
      leaves the display alone. */
  function PlaybackStep(s: Playback): (r: Playback)
    ensures r.acc.frames == s.acc.frames
    ensures s.acc.cursor < |s.acc.frames| ==>
      r.shown == Some(s.acc.frames[s.acc.cursor]) && r.acc.cursor == s.acc.cursor + 1
    ensures |s.acc.frames| <= s.acc.cursor ==> r.shown == s.shown && r.acc.cursor == 0
  {
    var l := LoadNext(s.acc);
    if l.frame.Some? then Playback(l.next, l.frame) else Playback(ResetNext(l.next), s.shown)
  }

  /** The state after `k` completed loads of the chain. */
  function PlaybackAfter(s: Playback, k: nat): (r: Playback)
    ensures r.acc.frames == s.acc.frames
    ensures s.acc.cursor <= |s.acc.frames| ==> r.acc.cursor <= |r.acc.frames|
    ensures r.shown != s.shown ==> r.shown.Some? && r.shown.value in s.acc.frames
  {
    if k == 0 then s else PlaybackStep(PlaybackAfter(s, k - 1))
  }

  /** The chain from the first frame, counted in whole passes `q` over the N frames plus the
      one rewinding load, and `c` loads into the current pass. */
  lemma {:induction false} PlaybackPasses(frames: seq<PointCloud>, init: Option<PointCloud>, q: nat, c: nat)
    requires c <= |frames|
    ensures var r := PlaybackAfter(Playback(Accumulator(frames, 0), init), q * (|frames| + 1) + c);
      var n := |frames|;
      && r.acc.cursor == c
      && r.shown == (if c != 0 then Some(frames[c - 1])
                     else if q == 0 || n == 0 then init
                     else Some(frames[n - 1]))
    decreases q, c
  {
    var n := |frames|;
    if c > 0 {
      PlaybackPasses(frames, init, q, c - 1);
    } else if q > 0 {
      PlaybackPasses(frames, init, q - 1, n);
      assert (q - 1) * (n + 1) + n + 1 == q * (n + 1);
    }
  }

  /** Starting from the first frame, the chain is a looping viewer: with N frames it shows
      frames 0 .. N-1 in order, rewinds on the (N+1)-th load, and starts over with period N + 1.
      With no frames at all nothing new is ever shown. */
  lemma PlaybackLoops(frames: seq<PointCloud>, init: Option<PointCloud>, k: nat)
    ensures var r := PlaybackAfter(Playback(Accumulator(frames, 0), init), k);
      var n := |frames|;
      && r.acc.cursor == k % (n + 1)
      && r.shown == (if k % (n + 1) != 0 then Some(frames[k % (n + 1) - 1])
                     else if k == 0 || n == 0 then init
                     else Some(frames[n - 1]))
  {
    var n := |frames|;
    var q, c := k / (n + 1), k % (n + 1);
    assert k == (n + 1) * q + c;
    assert (n + 1) * q == q * (n + 1);
    PlaybackPasses(frames, init, q, c);
    if q > 0 {
      assert (n + 1) * q >= n + 1 by { MulAtLeast(n + 1, q); }
    }
  }

  lemma MulAtLeast(a: nat, q: nat)
    requires q > 0
    ensures a * q >= a
  {
    assert a * q == a * (q - 1) + a;
  }

  /** The frame that the (k+1)-th load of the chain returns: frame k mod (N+1), or nothing
      when that index is N (the end of the sequence). */
  lemma FrameLoadedAt(frames: seq<PointCloud>, init: Option<PointCloud>, k: nat)
    ensures var r := PlaybackAfter(Playback(Accumulator(frames, 0), init), k);
      var c := k % (|frames| + 1);
      LoadNext(r.acc).frame == if c < |frames| then Some(frames[c]) else None
  {
    PlaybackLoops(frames, init, k);
  }

  // ---------------------------------------------------------------------------------------
  // Replacing the displayed point-cloud node
  // ---------------------------------------------------------------------------------------

  /** Among the nodes ever displayed (`marked`), only `current` is a child. */
  predicate OnlyCurrent(children: seq<SceneNode>, marked: set<SceneNode>, current: SceneNode?)
  {
    forall i :: 0 <= i < |children| && children[i] in marked ==> children[i] == current
  }

  /** The root's child list after `_pointCloudNode` goes from `prev` to `next`: willSet removes
      the old node from its parent, didSet adds the new one when there is one. */
  function ReplacePointCloud(children: seq<SceneNode>, prev: SceneNode?, next: SceneNode?): (r: seq<SceneNode>)
    ensures prev != null && prev != next ==> prev !in r
    ensures next != null ==> |r| > 0 && r[|r| - 1] == next
    ensures next == null ==> forall i :: 0 <= i < |r| ==> r[i] in children && r[i] != prev
    ensures forall i :: 0 <= i < |children| && children[i] != prev ==> children[i] in r
    ensures NoDup(children) ==> NoDup(r)
  {
    var afterWillSet := if prev != null then RemoveChild(children, prev) else children;
    if next != null then AddChild(afterWillSet, next) else afterWillSet
  }

  function Mark(marked: set<SceneNode>, n: SceneNode?): set<SceneNode>
  {
    if n == null then marked else marked + {n}
  }

  /** Replacing keeps the invariant: afterwards the only displayed node under the root is the
      new one (or none, after assigning nil). */
  lemma ReplaceKeepsOnlyCurrent(children: seq<SceneNode>, marked: set<SceneNode>, prev: SceneNode?, next: SceneNode?)
    requires OnlyCurrent(children, marked, prev)
    ensures OnlyCurrent(ReplacePointCloud(children, prev, next), Mark(marked, next), next)
  {
  }

  /** Everything the controller's invariant asks of the root's children survives a replacement. */
  lemma ReplacedStaysValid(children: seq<SceneNode>, marked: set<SceneNode>, prev: SceneNode?, next: SceneNode?)
    requires NoDup(children) && OnlyCurrent(children, marked, prev)
    ensures var r := ReplacePointCloud(children, prev, next);
      && NoDup(r) && OnlyCurrent(r, Mark(marked, next), next)
      && (next != null ==> next in Mark(marked, next) && next in r)
  {
    ReplaceKeepsOnlyCurrent(children, marked, prev, next);
  }

  /** With no repeated children, the invariant means at most one displayed node is under the root. */
  lemma AtMostOnePointCloud(children: seq<SceneNode>, marked: set<SceneNode>, current: SceneNode?)
    requires NoDup(children) && OnlyCurrent(children, marked, current)
    ensures forall i, j :: 0 <= i < j < |children| && children[i] in marked ==> children[j] !in marked
  {
  }

  // ---------------------------------------------------------------------------------------
  // The controller
  // ---------------------------------------------------------------------------------------

  /** Where a dispatched load is: waiting for the background queue, or loaded and waiting for
      the main queue (with the built node, or null when the accumulator had no frame). */
  datatype LoadStage = Queued | Fetched(node: SceneNode?)

  datatype Load = Load(autoLoadNext: bool, stage: LoadStage)

  function Without<T>(s: seq<T>, k: nat): seq<T>
    requires k < |s|
  {
    s[..k] + s[k + 1..]
  }

  class SequenceController {
    /** The root node of the scene view's scene. */
    const root: SceneNode
    var accumulator: Accumulator
    /** `_playing`. */
    var playing: bool
    /** `_pointCloudNode`. */
    var pointCloudNode: SceneNode?
    /** Loads dispatched by `_loadNextFrame` and not yet handled on the main queue. */
    var inFlight: seq<Load>
    var dismissed: bool
    /** The dismissal's completion has asked the file manager to remove the accumulator's
        container path (whether the removal succeeded is not observed). */
    var removalRequested: bool
    /** Every node ever assigned to `_pointCloudNode`. */
    ghost var shown: set<SceneNode>

    ghost predicate Valid()
      reads this, root
    {
      && NoDup(root.children)
      && OnlyCurrent(root.children, shown, pointCloudNode)
      && (pointCloudNode != null ==> pointCloudNode in shown && pointCloudNode in root.children)
      && accumulator.cursor <= |accumulator.frames|
    }

    /** The frame the displayed node draws, if any. */
    ghost function ShownFrame(): Option<PointCloud>
      reads this, pointCloudNode
    {
      if pointCloudNode != null && pointCloudNode.content.PointCloudGeometry?
      then Some(pointCloudNode.content.cloud) else None
    }

    constructor (root: SceneNode, frames: seq<PointCloud>)
      requires NoDup(root.children)
      ensures Valid() && this.root == root && root.children == old(root.children)
      ensures accumulator == Accumulator(frames, 0) && !playing && pointCloudNode == null
      ensures inFlight == [] && !dismissed && !removalRequested
    {
      this.root := root;
      accumulator := Accumulator(frames, 0);
      playing := false;
      pointCloudNode := null;
      inFlight := [];
      dismissed := false;
      removalRequested := false;
      shown := {};
    }

    /** Assigning `_pointCloudNode`: the old node leaves the root, the new one is named
        "point cloud" and added to the root. */
    method SetPointCloudNode(next: SceneNode?)
      requires Valid()
      modifies this, root, next
      ensures Valid()
      ensures pointCloudNode == next && shown == Mark(old(shown), next)
      ensures root.children == ReplacePointCloud(old(root.children), old(pointCloudNode), next)
      ensures next != null ==> next.Attrs() == old(next.Attrs()).(name := "point cloud")
      ensures next != null && next != root ==> next.children == old(next.children)
      ensures next != root ==> root.Attrs() == old(root.Attrs())
      ensures accumulator == old(accumulator) && playing == old(playing) && inFlight == old(inFlight)
      ensures dismissed == old(dismissed) && removalRequested == old(removalRequested)
    {
      ghost var before, prev := root.children, pointCloudNode;
      WillSetPointCloudNode();
      pointCloudNode := next;
      shown := Mark(shown, next);
      DidSetPointCloudNode();
      ghost var after := ReplacePointCloud(before, prev, next);
      assert root.children == after;
      ReplacedStaysValid(before, old(shown), prev, next);
    }

    /** willSet of `_pointCloudNode`: the current node is removed from its parent. */
    method WillSetPointCloudNode()
      modifies root
      ensures root.children == if pointCloudNode != null then RemoveChild(old(root.children), pointCloudNode)
                               else old(root.children)
      ensures root.Attrs() == old(root.Attrs())
    {
      if pointCloudNode != null {
        root.children := RemoveChild(root.children, pointCloudNode);
      }
    }

    /** didSet of `_pointCloudNode`: the new node is named and added to the root. */
    method DidSetPointCloudNode()
      modifies root, pointCloudNode
      ensures root.children == if pointCloudNode != null then AddChild(old(root.children), pointCloudNode)
                               else old(root.children)
      ensures pointCloudNode != null ==> pointCloudNode.Attrs() == old(pointCloudNode.Attrs()).(name := "point cloud")
      ensures pointCloudNode != null && pointCloudNode != root ==> pointCloudNode.children == old(pointCloudNode.children)
      ensures pointCloudNode != root ==> root.Attrs() == old(root.Attrs())
    {
      if pointCloudNode != null {
        pointCloudNode.name := "point cloud";
        root.children := AddChild(root.children, pointCloudNode);
      }
    }

    /** `_loadNextFrame(andAutoLoadNext:)`: dispatch one load to the background queue. */
    method LoadNextFrame(autoLoadNext: bool)
      modifies this
      ensures inFlight == old(inFlight) + [Load(autoLoadNext, Queued)]
      ensures accumulator == old(accumulator) && playing == old(playing)
      ensures pointCloudNode == old(pointCloudNode) && shown == old(shown)
      ensures dismissed == old(dismissed) && removalRequested == old(removalRequested)
    {
      inFlight := inFlight + [Load(autoLoadNext, Queued)];
    }

    /** viewDidAppear: a single load that does not continue. */
    method ViewDidAppear()
      modifies this
      ensures inFlight == old(inFlight) + [Load(false, Queued)]
      ensures accumulator == old(accumulator) && playing == old(playing)
      ensures pointCloudNode == old(pointCloudNode) && shown == old(shown)
      ensures dismissed == old(dismissed) && removalRequested == old(removalRequested)
    {
      LoadNextFrame(false);
    }

    /** `_viewTapped`: the first tap starts auto-advancing playback; a tap while playing
        dismisses the screen, whose completion deletes the accumulator's container path. */
    method ViewTapped()
      modifies this
      ensures playing
      ensures accumulator == old(accumulator) && pointCloudNode == old(pointCloudNode) && shown == old(shown)
      ensures old(playing) ==> dismissed && removalRequested && inFlight == old(inFlight)
      ensures !old(playing) ==>
        && inFlight == old(inFlight) + [Load(true, Queued)]
        && dismissed == old(dismissed) && removalRequested == old(removalRequested)
    {
      if playing {
        dismissed := true;
        removalRequested := true;
      } else {
        playing := true;
        LoadNextFrame(true);
      }
    }

    /** The background half of load `k`: read the next frame and build its node. */
    method FetchFrame(k: nat) returns (node: SceneNode?)
      requires Valid() && k < |inFlight| && inFlight[k].stage == Queued
      modifies this
      ensures Valid()
      ensures var l := LoadNext(old(accumulator));
        && accumulator == l.next
        && (l.frame.Some? ==> node != null && fresh(node) && node.content == PointCloudGeometry(l.frame.value))
        && (l.frame.None? ==> node == null)
      ensures inFlight == old(inFlight)[k := Load(old(inFlight)[k].autoLoadNext, Fetched(node))]
      ensures playing == old(playing) && pointCloudNode == old(pointCloudNode) && shown == old(shown)
      ensures dismissed == old(dismissed) && removalRequested == old(removalRequested)
    {
      var l := LoadNext(accumulator);
      accumulator := l.next;
      node := null;
      if l.frame.Some? {
        node := new SceneNode(PointCloudGeometry(l.frame.value));
      }
      inFlight := inFlight[k := Load(inFlight[k].autoLoadNext, Fetched(node))];
    }

    /** The main-queue half of load `k`: show the frame, or rewind the accumulator when there
        was none; then, for an auto-advancing load, dispatch exactly one further load. */
    method HandleFetched(k: nat)
      requires Valid() && k < |inFlight| && inFlight[k].stage.Fetched?
      modifies this, root, inFlight[k].stage.node
      ensures Valid()
      ensures var ld := old(inFlight)[k];
        inFlight == Without(old(inFlight), k) + (if ld.autoLoadNext then [Load(true, Queued)] else [])
      ensures var node := old(inFlight)[k].stage.node;
        && (node != null ==>
              && pointCloudNode == node && accumulator == old(accumulator)
              && root.children == ReplacePointCloud(old(root.children), old(pointCloudNode), node)
              && node.Attrs() == old(node.Attrs()).(name := "point cloud")
              && (node != root ==> node.children == old(node.children)))
        && (node != root ==> root.Attrs() == old(root.Attrs()))
        && (node == null ==>
              && pointCloudNode == old(pointCloudNode) && accumulator == ResetNext(old(accumulator))
              && root.children == old(root.children))
      ensures playing == old(playing)
      ensures dismissed == old(dismissed) && removalRequested == old(removalRequested)
    {
      var ld := inFlight[k];
      var node := ld.stage.node;
      if node != null {
        SetPointCloudNode(node);
      } else {
        accumulator := ResetNext(accumulator);
      }
      inFlight := Without(inFlight, k);
      if ld.autoLoadNext {
        LoadNextFrame(true);
      }
    }

    /** One turn of the auto-advancing chain when it is the only load in flight: it advances
        the displayed frame and the accumulator exactly as PlaybackStep does, and leaves one
        auto-advancing load in flight again. */
    method AutoLoadCycle()
      requires Valid() && inFlight == [Load(true, Queued)]
      modifies this, root
      ensures Valid() && inFlight == [Load(true, Queued)]
      ensures Playback(accumulator, ShownFrame()) == PlaybackStep(Playback(old(accumulator), old(ShownFrame())))
      ensures LoadNext(old(accumulator)).frame.Some? ==>
        && pointCloudNode != null && fresh(pointCloudNode)
        && root.children == ReplacePointCloud(old(root.children), old(pointCloudNode), pointCloudNode)
      ensures LoadNext(old(accumulator)).frame.None? ==>
        pointCloudNode == old(pointCloudNode) && root.children == old(root.children)
      ensures root.Attrs() == old(root.Attrs())
      ensures playing == old(playing) && dismissed == old(dismissed) && removalRequested == old(removalRequested)
    {
      var node := FetchFrame(0);
      HandleFetched(0);
    }
  }
}
