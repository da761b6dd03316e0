/**
 * Stage 5 of the generation pipeline, auto-rigging (`stage5_rigging`). A
 * humanoid skeleton of nineteen bones is built by appending a root, a
 * three-bone spine, a head, two four-bone arms and two three-bone legs, and
 * the list is cut to the caller's bone limit with a Python slice.
 *
 * Bones keep their names and parents; their positions are floating-point
 * offsets from the mesh's bounding box and are not modelled, so a mesh is
 * its list of vertices.
 */
module Rigging {
  import opened Wrappers
  import opened Text

  datatype Vertex = Vertex(x: real, y: real, z: real)
  datatype Mesh = Mesh(vertices: seq<Vertex>)

  datatype Bone = Bone(name: string, parent: Option<string>)
  datatype Skeleton = Skeleton(bones: seq<Bone>, root: string)

  // ---------------------------------------------------------------------------
  // Bone names
  // ---------------------------------------------------------------------------

  datatype Side = Left | Right
  datatype Limb = Shoulder | UpperArm | LowerArm | Hand | UpperLeg | LowerLeg | Foot

  /** What a bone stands for; its name is the f-string the source builds for it. */
  datatype Part = Root | Spine(i: nat) | Head | Sided(side: Side, limb: Limb)

  function SideName(s: Side): string {
    match s
    case Left => "left"
    case Right => "right"
  }

  function LimbSuffix(l: Limb): string {
    match l
    case Shoulder => "_shoulder"
    case UpperArm => "_upper_arm"
    case LowerArm => "_lower_arm"
    case Hand => "_hand"
    case UpperLeg => "_upper_leg"
    case LowerLeg => "_lower_leg"
    case Foot => "_foot"
  }

  /** `'root'`, `f'spine_{i}'`, `'head'` and `f'{side}_<limb>'`. */
  function Name(p: Part): string {
    match p
    case Root => "root"
    case Spine(i) => "spine_" + NatToString(i)
    case Head => "head"
    case Sided(s, l) => SideName(s) + LimbSuffix(l)
  }

  /** Different parts get different names. */
  lemma NameInjective(p: Part, q: Part)
    requires Name(p) == Name(q)
    ensures p == q
  {
    if p.Spine? && q.Spine? {
      assert NatToString(p.i) == Name(p)[6..];
      NatToStringValue(p.i);
      NatToStringValue(q.i);
    } else if p.Sided? && q.Sided? {
      assert Name(p)[4] == Name(q)[4];
      assert p.side == q.side;
      var n := |SideName(p.side)|;
      assert LimbSuffix(p.limb) == Name(p)[n..];
    } else {
      assert Name(p)[0] == Name(q)[0];
      assert |Name(p)| == |Name(q)|;
    }
  }

  /** A bone of the skeleton by part: its name, and its parent's name. */
  datatype Joint = Joint(part: Part, parent: Option<Part>)

  /** The `parent` entry of a bone: its parent's name, or `None` for the root. */
  function ParentName(parent: Option<Part>): Option<string> {
    if parent.Some? then Some(Name(parent.value)) else None
  }

  function Render(j: Joint): Bone {
    Bone(Name(j.part), ParentName(j.parent))
  }

  /** Where each part sits in the full skeleton. */
  function Slot(p: Part): int {
    match p
    case Root => 0
    case Spine(i) => 1 + i
    case Head => 4
    case Sided(side, limb) =>
      var arm := if side == Left then 5 else 9;
      var leg := if side == Left then 13 else 16;
      match limb
      case Shoulder => arm
      case UpperArm => arm + 1
      case LowerArm => arm + 2
      case Hand => arm + 3
      case UpperLeg => leg
      case LowerLeg => leg + 1
      case Foot => leg + 2
  }

  /** The parts of the full skeleton: every part but the spine bones past the third. */
  predicate InHumanoid(p: Part) {
    !p.Spine? || p.i < 3
  }

  /**
   * The hierarchy the skeleton is built to have, part by part: the spine
   * hangs off the root, the head and both shoulders off the top of the spine,
   * both upper legs off the root, and each further limb bone off the one
   * before it on its side.
   */
  function Hierarchy(p: Part): Option<Part> {
    match p
    case Root => None
    case Spine(i) => if i == 0 then Some(Root) else Some(Spine(i - 1))
    case Head => Some(Spine(2))
    case Sided(s, l) =>
      match l
      case Shoulder => Some(Spine(2))
      case UpperArm => Some(Sided(s, Shoulder))
      case LowerArm => Some(Sided(s, UpperArm))
      case Hand => Some(Sided(s, LowerArm))
      case UpperLeg => Some(Root)
      case LowerLeg => Some(Sided(s, UpperLeg))
      case Foot => Some(Sided(s, LowerLeg))
  }

  /** The `k`-th of the nineteen bones of the full skeleton, in the order they are appended. */
  function JointAt(k: nat): (j: Joint)
    requires k < 19
    ensures Slot(j.part) == k && InHumanoid(j.part)
    ensures j.parent == Hierarchy(j.part)
    ensures j.parent.None? <==> k == 0
    ensures j.parent.Some? ==> 0 <= Slot(j.parent.value) < k
  {
    if k == 0 then Joint(Root, None)
    else if k == 1 then Joint(Spine(0), Some(Root))
    else if k == 2 then Joint(Spine(1), Some(Spine(0)))
    else if k == 3 then Joint(Spine(2), Some(Spine(1)))
    else if k == 4 then Joint(Head, Some(Spine(2)))
    else if k == 5 then Joint(Sided(Left, Shoulder), Some(Spine(2)))
    else if k == 6 then Joint(Sided(Left, UpperArm), Some(Sided(Left, Shoulder)))
    else if k == 7 then Joint(Sided(Left, LowerArm), Some(Sided(Left, UpperArm)))
    else if k == 8 then Joint(Sided(Left, Hand), Some(Sided(Left, LowerArm)))
    else if k == 9 then Joint(Sided(Right, Shoulder), Some(Spine(2)))
    else if k == 10 then Joint(Sided(Right, UpperArm), Some(Sided(Right, Shoulder)))
    else if k == 11 then Joint(Sided(Right, LowerArm), Some(Sided(Right, UpperArm)))
    else if k == 12 then Joint(Sided(Right, Hand), Some(Sided(Right, LowerArm)))
    else if k == 13 then Joint(Sided(Left, UpperLeg), Some(Root))
    else if k == 14 then Joint(Sided(Left, LowerLeg), Some(Sided(Left, UpperLeg)))
    else if k == 15 then Joint(Sided(Left, Foot), Some(Sided(Left, LowerLeg)))
    else if k == 16 then Joint(Sided(Right, UpperLeg), Some(Root))
    else if k == 17 then Joint(Sided(Right, LowerLeg), Some(Sided(Right, UpperLeg)))
    else Joint(Sided(Right, Foot), Some(Sided(Right, LowerLeg)))
  }

  const HumanoidJoints: seq<Joint> := seq(19, k requires 0 <= k < 19 => JointAt(k))

  function RenderAll(js: seq<Joint>): (bs: seq<Bone>)
    ensures |bs| == |js| && forall k | 0 <= k < |js| :: bs[k] == Render(js[k])
  {
    seq(|js|, k requires 0 <= k < |js| => Render(js[k]))
  }

  /** The full skeleton's bones as the source's dictionaries carry them. */
  const Humanoid: seq<Bone> := RenderAll(HumanoidJoints)

  // ---------------------------------------------------------------------------
  // Python's `s[:limit]`
  // ---------------------------------------------------------------------------

  /**
   * `s[:limit]`: the first `limit` elements, all of them when `limit` is past
   * the end, and for a negative `limit` all but the last `-limit`.
   */
  function SlicePrefix<T>(s: seq<T>, limit: int): (r: seq<T>)
    ensures limit >= 0 ==> |r| == if limit < |s| then limit else |s|
    ensures limit < 0 ==> |r| == if |s| + limit > 0 then |s| + limit else 0
    ensures r == s[..|r|]
  {
    var n := if limit >= 0 then limit else |s| + limit;
    if n <= 0 then [] else if n >= |s| then s else s[..n]
  }

  // ---------------------------------------------------------------------------
  // Shape of a skeleton
  // ---------------------------------------------------------------------------

  /** No two bones share a name. */
  predicate DistinctNames(bones: seq<Bone>) {
    forall i, j | 0 <= i < j < |bones| :: bones[i].name != bones[j].name
  }

  /** Every bone's parent, when it has one, is the name of a bone earlier in the list. */
  predicate ParentsEarlier(bones: seq<Bone>) {
    forall i | 0 <= i < |bones| && bones[i].parent.Some? ::
      exists j | 0 <= j < i :: bones[j].name == bones[i].parent.value
  }

  /** Exactly the first bone, `root`, has no parent. */
  predicate RootFirst(bones: seq<Bone>) {
    && (|bones| > 0 ==> bones[0] == Bone("root", None))
    && forall i | 0 < i < |bones| :: bones[i].parent.Some?
  }

  /** The parent of the bone called `name`, if the list has such a bone. */
  function ParentOf(bones: seq<Bone>, name: string): (r: Option<Option<string>>)
    ensures r.Some? <==> exists i | 0 <= i < |bones| :: bones[i].name == name
    ensures r.Some? ==> exists i | 0 <= i < |bones| :: bones[i].name == name && bones[i].parent == r.value
  {
    if bones == [] then None
    else if bones[0].name == name then Some(bones[0].parent)
    else
      var r := ParentOf(bones[1..], name);
      assert forall i | 1 <= i < |bones| :: bones[i] == bones[1..][i - 1];
      r
  }

  /** No two joints stand for the same part. */
  predicate DistinctParts(js: seq<Joint>) {
    forall i, j | 0 <= i < j < |js| :: js[i].part != js[j].part
  }

  /** The part-level shape: the root first and alone without a parent, each parent earlier. */
  predicate JointsShaped(js: seq<Joint>) {
    && DistinctParts(js)
    && (|js| > 0 ==> js[0] == Joint(Root, None))
    && (forall i | 0 < i < |js| :: js[i].parent.Some?)
    && forall i | 0 <= i < |js| && js[i].parent.Some? ::
         exists j | 0 <= j < i :: js[j].part == js[i].parent.value
  }

  /** Naming the parts keeps the shape, because names are injective. */
  lemma RenderKeepsShape(js: seq<Joint>)
    requires JointsShaped(js)
    ensures var bs := RenderAll(js);
      DistinctNames(bs) && RootFirst(bs) && ParentsEarlier(bs)
  {
    var bs := RenderAll(js);
    forall i, j | 0 <= i < j < |bs|
      ensures bs[i].name != bs[j].name
    {
      if bs[i].name == bs[j].name {
        NameInjective(js[i].part, js[j].part);
        assert false;
      }
    }
    forall i | 0 <= i < |bs| && bs[i].parent.Some?
      ensures exists j | 0 <= j < i :: bs[j].name == bs[i].parent.value
    {
      var j :| 0 <= j < i && js[j].part == js[i].parent.value;
      assert bs[j].name == bs[i].parent.value;
    }
  }

  lemma HumanoidJointsShaped()
    ensures JointsShaped(HumanoidJoints)
  {
    var js := HumanoidJoints;
    forall i, j | 0 <= i < j < |js|
      ensures js[i].part != js[j].part
    {
      assert Slot(js[i].part) == i && Slot(js[j].part) == j;
    }
    forall i | 0 <= i < |js| && js[i].parent.Some?
      ensures exists j | 0 <= j < i :: js[j].part == js[i].parent.value
    {
      var j := Slot(js[i].parent.value);
      assert js[j].part == js[i].parent.value;
    }
  }

  /** The full skeleton has nineteen distinct bones, rooted at `root`, each parent before its child. */
  lemma HumanoidShape()
    ensures |Humanoid| == 19
    ensures DistinctNames(Humanoid)
    ensures RootFirst(Humanoid)
    ensures ParentsEarlier(Humanoid)
  {
    HumanoidJointsShaped();
    RenderKeepsShape(HumanoidJoints);
  }

  /** The parent of the joint for part `p`, if there is one. */
  function PartParent(js: seq<Joint>, p: Part): (r: Option<Option<Part>>)
    ensures r.Some? <==> exists i | 0 <= i < |js| :: js[i].part == p
    ensures r.Some? ==> exists i | 0 <= i < |js| :: js[i].part == p && js[i].parent == r.value
  {
    if js == [] then None
    else if js[0].part == p then Some(js[0].parent)
    else
      var r := PartParent(js[1..], p);
      assert forall i | 1 <= i < |js| :: js[i] == js[1..][i - 1];
      r
  }

  /** Looking a part's name up in the named list finds the name of the parent found by part. */
  lemma {:induction false} NamedLookup(js: seq<Joint>, p: Part)
    ensures ParentOf(RenderAll(js), Name(p)) ==
      if PartParent(js, p).Some? then Some(ParentName(PartParent(js, p).value)) else None
  {
    if js != [] {
      var bs := RenderAll(js);
      assert bs[1..] == RenderAll(js[1..]);
      if js[0].part != p {
        if bs[0].name == Name(p) {
          NameInjective(js[0].part, p);
        }
        NamedLookup(js[1..], p);
      }
    }
  }

  /** With distinct parts, looking up the part of joint `i` finds joint `i`'s parent. */
  lemma JointLookup(js: seq<Joint>, i: nat)
    requires DistinctParts(js) && i < |js|
    ensures PartParent(js, js[i].part) == Some(js[i].parent)
  {
  }

  /** Each part of the full skeleton is the joint at its slot. */
  lemma SlotFindsPart(p: Part)
    requires InHumanoid(p)
    ensures 0 <= Slot(p) < 19 && JointAt(Slot(p)).part == p
  {
    match p
    case Root =>
    case Spine(i) =>
    case Head =>
    case Sided(s, l) =>
      if s == Left {
        match l
        case Shoulder => case UpperArm => case LowerArm => case Hand =>
        case UpperLeg => case LowerLeg => case Foot =>
      } else {
        match l
        case Shoulder => case UpperArm => case LowerArm => case Hand =>
        case UpperLeg => case LowerLeg => case Foot =>
      }
  }

  /**
   * The full skeleton has a joint for exactly the parts of the humanoid, and
   * each one's parent is the one the hierarchy gives it.
   */
  lemma HumanoidParents(p: Part)
    ensures PartParent(HumanoidJoints, p).Some? <==> InHumanoid(p)
    ensures InHumanoid(p) ==> PartParent(HumanoidJoints, p) == Some(Hierarchy(p))
  {
    if InHumanoid(p) {
      SlotFindsPart(p);
      HumanoidJointsShaped();
      JointLookup(HumanoidJoints, Slot(p));
    }
  }

  /** By name: `root` has no parent, and every other bone's parent is the one the hierarchy names. */
  lemma HumanoidParentNames(p: Part)
    ensures ParentOf(Humanoid, Name(p)).Some? <==> InHumanoid(p)
    ensures InHumanoid(p) ==> ParentOf(Humanoid, Name(p)) == Some(ParentName(Hierarchy(p)))
  {
    HumanoidParents(p);
    NamedLookup(HumanoidJoints, p);
  }

  /** Cutting the list to a prefix keeps names distinct, the root first, and parents before children. */
  lemma PrefixKeepsShape(bones: seq<Bone>, limit: int)
    requires DistinctNames(bones) && RootFirst(bones) && ParentsEarlier(bones)
    ensures var r := SlicePrefix(bones, limit);
      DistinctNames(r) && RootFirst(r) && ParentsEarlier(r)
  {
    var r := SlicePrefix(bones, limit);
    forall i | 0 <= i < |r| && r[i].parent.Some?
      ensures exists j | 0 <= j < i :: r[j].name == r[i].parent.value
    {
      var j :| 0 <= j < i && bones[j].name == bones[i].parent.value;
      assert r[j] == bones[j];
    }
  }

  // ---------------------------------------------------------------------------
  // generate_humanoid_skeleton and auto_rig_character
  // ---------------------------------------------------------------------------

  /** `vertices.min(axis=0)` on a mesh without vertices raises. */
  datatype Outcome<T> = EmptyMesh | Built(value: T)

  /** Appending the bone for `p` with the parent the hierarchy gives it extends a prefix of the full skeleton by one. */
  lemma AppendNext(bones: seq<Bone>, p: Part, parent: Option<Part>)
    requires InHumanoid(p) && parent == Hierarchy(p)
    requires bones == Humanoid[..Slot(p)]
    ensures 0 <= Slot(p) < 19
    ensures bones + [Render(Joint(p, parent))] == Humanoid[..Slot(p) + 1]
  {
    SlotFindsPart(p);
    assert Humanoid[Slot(p)] == Render(Joint(p, parent));
  }

  /**
   * `generate_humanoid_skeleton(mesh, bone_limit)`: the appends of the source,
   * in its order, then `bones[:bone_limit]` with `root = 'root'`.
   */
  method GenerateHumanoidSkeleton(mesh: Mesh, boneLimit: int) returns (r: Outcome<Skeleton>)
    ensures mesh.vertices == [] <==> r.EmptyMesh?
    ensures r.Built? ==> r.value == Skeleton(SlicePrefix(Humanoid, boneLimit), "root")
  {
    if mesh.vertices == [] {
      return EmptyMesh;
    }
    AppendNext([], Root, None);
    var bones := [Render(Joint(Root, None))];
    for i := 0 to 3
      invariant bones == Humanoid[..1 + i]
    {
      var parent := if i == 0 then Root else Spine(i - 1);
      AppendNext(bones, Spine(i), Some(parent));
      bones := bones + [Render(Joint(Spine(i), Some(parent)))];
    }
    AppendNext(bones, Head, Some(Spine(2)));
    bones := bones + [Render(Joint(Head, Some(Spine(2))))];
    var sides := [Left, Right];
    for s := 0 to 2
      invariant bones == Humanoid[..5 + 4 * s]
    {
      var side := sides[s];
      AppendNext(bones, Sided(side, Shoulder), Some(Spine(2)));
      bones := bones + [Render(Joint(Sided(side, Shoulder), Some(Spine(2))))];
      AppendNext(bones, Sided(side, UpperArm), Some(Sided(side, Shoulder)));
      bones := bones + [Render(Joint(Sided(side, UpperArm), Some(Sided(side, Shoulder))))];
      AppendNext(bones, Sided(side, LowerArm), Some(Sided(side, UpperArm)));
      bones := bones + [Render(Joint(Sided(side, LowerArm), Some(Sided(side, UpperArm))))];
      AppendNext(bones, Sided(side, Hand), Some(Sided(side, LowerArm)));
      bones := bones + [Render(Joint(Sided(side, Hand), Some(Sided(side, LowerArm))))];
    }
    for s := 0 to 2
      invariant bones == Humanoid[..13 + 3 * s]
    {
      var side := sides[s];
      AppendNext(bones, Sided(side, UpperLeg), Some(Root));
      bones := bones + [Render(Joint(Sided(side, UpperLeg), Some(Root)))];
      AppendNext(bones, Sided(side, LowerLeg), Some(Sided(side, UpperLeg)));
      bones := bones + [Render(Joint(Sided(side, LowerLeg), Some(Sided(side, UpperLeg))))];
      AppendNext(bones, Sided(side, Foot), Some(Sided(side, LowerLeg)));
      bones := bones + [Render(Joint(Sided(side, Foot), Some(Sided(side, LowerLeg))))];
    }
    assert bones == Humanoid;
    return Built(Skeleton(SlicePrefix(bones, boneLimit), "root"));
  }

  /** The rig handed back: the skeleton (the skinning weights are not modelled). */
  datatype Rig = Rig(skeleton: Skeleton)

  /** `auto_rig_character(mesh, bone_limit=30)`. */
  method AutoRigCharacter(mesh: Mesh, boneLimit: int := 30) returns (r: Outcome<Rig>)
    ensures mesh.vertices == [] <==> r.EmptyMesh?
    ensures r.Built? ==> r.value.skeleton == Skeleton(SlicePrefix(Humanoid, boneLimit), "root")
  {
    var skeleton := GenerateHumanoidSkeleton(mesh, boneLimit);
    if skeleton.EmptyMesh? {
      return EmptyMesh;
    }
    return Built(Rig(skeleton.value));
  }

  /** With the default limit of 30, every one of the nineteen bones is kept. */
  lemma DefaultLimitKeepsAll()
    ensures SlicePrefix(Humanoid, 30) == Humanoid
  {
  }

  /** Whatever the limit, the rig's bones are a well-formed prefix of the full skeleton. */
  lemma RigIsWellFormed(limit: int)
    ensures var bones := SlicePrefix(Humanoid, limit);
      && |bones| <= 19
      && DistinctNames(bones) && RootFirst(bones) && ParentsEarlier(bones)
  {
    HumanoidShape();
    PrefixKeepsShape(Humanoid, limit);
  }
}
