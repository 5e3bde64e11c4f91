/**
 * `PumpkinNPC`: a talking pumpkin's dialogue state machine. The head's
 * sway (`update`), its geometry and the one-second texture timer are left
 * out; the dialogue-change callback is the value each method reports.
 */
module Npc {
  import opened Wrappers
  import opened Vectors
  import opened SceneGraph
  import JsMath

  /** A JavaScript number used as an index: an integer, or `NaN` after `% 0`. */
  datatype JsIndex = Num(n: int) | NaN

  /** The texture on the head's face. */
  datatype Texture = NormalTexture | TalkingTexture

  /** The interaction radius of `checkPlayerProximity`. */
  const TalkRadius: real := 0.3
  const BodyHalfExtents: Vec3 := Vec3(0.1, 0.1, 0.1)

  /** `(index + 1) % length`; a zero length gives `NaN`, and `NaN` stays `NaN`. */
  function NextIndex(index: JsIndex, length: nat): (r: JsIndex)
    ensures length == 0 || index.NaN? ==> r.NaN?
    ensures length > 0 && index.Num? && index.n >= -1 ==> r.Num? && 0 <= r.n < length
    ensures length > 0 && index.Num? && 0 <= index.n < length - 1 ==> r == Num(index.n + 1)
    ensures length > 0 && index == Num(length - 1) ==> r == Num(0)
  {
    if length == 0 || index.NaN? then NaN else Num(JsMath.IntRem(index.n + 1, length))
  }

  /** `dialogues[index]`; out of range or `NaN` is `undefined`. */
  function DialogueAt(dialogues: seq<string>, index: JsIndex): (line: Option<string>)
    ensures line.Some? <==> index.Num? && 0 <= index.n < |dialogues|
    ensures line.Some? ==> line.value == dialogues[index.n]
  {
    if index.Num? && 0 <= index.n < |dialogues| then Some(dialogues[index.n]) else None
  }

  /** `n` progress steps from `index`. */
  function Progressed(index: JsIndex, length: nat, n: nat): JsIndex
    decreases n
  {
    if n == 0 then index else NextIndex(Progressed(index, length, n - 1), length)
  }

  /**
   * Starting from the first line, the first `length - 1` steps walk through
   * the lines in order and step `length` is back at the first: the dialogue cycles.
   */
  lemma {:induction false} ProgressCycles(length: nat, n: nat)
    requires 0 < length && n <= length
    ensures n < length ==> Progressed(Num(0), length, n) == Num(n)
    ensures n == length ==> Progressed(Num(0), length, n) == Num(0)
    decreases n
  {
    if n > 0 {
      ProgressCycles(length, n - 1);
    }
  }

  function Toggled(t: Texture): Texture {
    if t == NormalTexture then TalkingTexture else NormalTexture
  }

  /** Toggling alternates: each toggle changes the texture, two restore it. */
  lemma ToggleAlternates(t: Texture)
    ensures Toggled(t) != t && Toggled(Toggled(t)) == t
  {
  }

  class PumpkinNPC {
    const scene: Scene
    const world: World
    const group: SceneNode
    const body: Body
    var dialogues: seq<string>
    var currentDialogueIndex: JsIndex
    var isDialogueActive: bool
    var isTalking: bool
    var headTexture: Texture

    /** The constructor: the group goes into the scene, a static box body at its position into the world. */
    constructor(scene: Scene, world: World, position: Vec3, dialogues: seq<string>)
      modifies scene, world
      ensures this.scene == scene && this.world == world && this.dialogues == dialogues
      ensures fresh(group) && fresh(body) && group.position == position && group.visible
      ensures body.mass == 0.0 && body.halfExtents == BodyHalfExtents && body.position == position
      ensures scene.nodes == old(scene.nodes) + {group} && world.bodies == old(world.bodies) + {body}
      ensures currentDialogueIndex == Num(0) && !isDialogueActive && !isTalking && headTexture == NormalTexture
    {
      this.scene := scene;
      this.world := world;
      this.dialogues := dialogues;
      currentDialogueIndex := Num(0);
      isDialogueActive := false;
      isTalking := false;
      headTexture := NormalTexture;
      var g := new SceneNode(position);
      group := g;
      body := new Body(0.0, BodyHalfExtents, g.position);
      new;
      scene.Add(group);
      world.AddBody(body);
    }

    /** `setDialogue`: a single line, shown from the start. */
    method SetDialogue(line: string)
      modifies this`dialogues, this`currentDialogueIndex
      ensures dialogues == [line] && currentDialogueIndex == Num(0)
      ensures GetDialogueOptions() == Some(line)
    {
      dialogues := [line];
      currentDialogueIndex := Num(0);
    }

    /** `checkPlayerProximity`: true within 0.3; otherwise `undefined`, which is falsy. */
    function CheckPlayerProximity(playerPosition: Vec3): (near: bool)
      reads group
      ensures near <==> DistSq(group.position, playerPosition) < TalkRadius * TalkRadius
    {
      Near(group.position, playerPosition, TalkRadius)
    }

    /** `getDialogueOptions`: the current line, or `undefined` when the index is out of range or `NaN`. */
    function GetDialogueOptions(): (line: Option<string>)
      reads this
      ensures line.Some? <==> currentDialogueIndex.Num? && 0 <= currentDialogueIndex.n < |dialogues|
      ensures line.Some? ==> line.value == dialogues[currentDialogueIndex.n]
    {
      DialogueAt(dialogues, currentDialogueIndex)
    }

    /** `progressDialogue`: the next line, cyclically, while a conversation runs; otherwise nothing. */
    method ProgressDialogue() returns (reported: Option<Option<string>>)
      modifies this`currentDialogueIndex
      ensures !old(isDialogueActive) ==> currentDialogueIndex == old(currentDialogueIndex) && reported.None?
      ensures old(isDialogueActive) ==> currentDialogueIndex == NextIndex(old(currentDialogueIndex), |dialogues|)
      ensures old(isDialogueActive) ==> reported == Some(GetDialogueOptions())
      ensures isDialogueActive && 0 < |dialogues| && old(currentDialogueIndex).Num? ==>
        (0 <= old(currentDialogueIndex).n < |dialogues| ==> GetDialogueOptions().Some?)
    {
      reported := None;
      if isDialogueActive {
        currentDialogueIndex := NextIndex(currentDialogueIndex, |dialogues|);
        reported := Some(GetDialogueOptions());
      }
    }

    /** `startTalking`: the conversation opens at the first line, which is reported. */
    method StartTalking() returns (reported: Option<string>)
      modifies this`isDialogueActive, this`isTalking, this`currentDialogueIndex
      ensures isDialogueActive && isTalking && currentDialogueIndex == Num(0)
      ensures reported == (if |dialogues| > 0 then Some(dialogues[0]) else None)
    {
      isDialogueActive := true;
      isTalking := true;
      currentDialogueIndex := Num(0);
      reported := GetDialogueOptions();
    }

    /** `stopTalking`: the conversation closes, the face is reset and null is reported. */
    method StopTalking() returns (reported: Option<string>)
      modifies this`isDialogueActive, this`isTalking, this`currentDialogueIndex, this`headTexture
      ensures !isDialogueActive && !isTalking && currentDialogueIndex == Num(0)
      ensures headTexture == NormalTexture && reported.None?
    {
      isDialogueActive := false;
      isTalking := false;
      currentDialogueIndex := Num(0);
      headTexture := NormalTexture;
      reported := None;
    }

    method ToggleTexture()
      modifies this`headTexture
      ensures headTexture == Toggled(old(headTexture))
    {
      if headTexture == NormalTexture {
        headTexture := TalkingTexture;
      } else {
        headTexture := NormalTexture;
      }
    }

    /** `removeFromScene`: the group leaves the scene and the body the world. */
    method RemoveFromScene()
      modifies scene, world
      ensures scene.nodes == old(scene.nodes) - {group} && world.bodies == old(world.bodies) - {body}
    {
      scene.Remove(group);
      world.RemoveBody(body);
    }
  }
}
