/**
 * The talk interaction of `RoomManager.checkPumpkinInteraction` and the
 * pumpkin teardown every talking room repeats in its `removeFromScene`. A
 * held 't' is consumed by the first pumpkin the player stands near: that
 * pumpkin opens its conversation or moves it on one line; every pumpkin
 * the player is away from closes a conversation it was still having.
 */
module PumpkinTalk {
  import opened Wrappers
  import opened Vectors
  import opened SceneGraph
  import opened InputController
  import opened Npc

  /** No pumpkin appears twice in the list. */
  predicate Distinct(pumpkins: seq<PumpkinNPC>) {
    forall a, b :: 0 <= a < b < |pumpkins| ==> pumpkins[a] != pumpkins[b]
  }

  /** Every pumpkin was built on this scene and world. */
  predicate LivesIn(pumpkins: seq<PumpkinNPC>, scene: Scene, world: World) {
    forall p :: p in pumpkins ==> p.scene == scene && p.world == world
  }

  /** Some pumpkin before position `i` is within talking range. */
  predicate NearBefore(pumpkins: seq<PumpkinNPC>, playerPosition: Vec3, i: int)
    requires 0 <= i <= |pumpkins|
    reads set p | p in pumpkins :: p.group
  {
    exists j :: 0 <= j < i && pumpkins[j].CheckPlayerProximity(playerPosition)
  }

  /** 't' is still held when the sweep reaches pumpkin `i`: it was held and no earlier pumpkin took it. */
  predicate TalkReaches(talkHeld: bool, pumpkins: seq<PumpkinNPC>, playerPosition: Vec3, i: int)
    requires 0 <= i <= |pumpkins|
    reads set p | p in pumpkins :: p.group
  {
    talkHeld && !NearBefore(pumpkins, playerPosition, i)
  }

  /** Only the first pumpkin in range can be reached by a held 't'. */
  lemma TalkReachesFirstNearOnly(talkHeld: bool, pumpkins: seq<PumpkinNPC>, playerPosition: Vec3, i: int, j: int)
    requires 0 <= i < j < |pumpkins|
    requires pumpkins[i].CheckPlayerProximity(playerPosition)
    ensures !TalkReaches(talkHeld, pumpkins, playerPosition, j)
  {
    assert 0 <= i < j && pumpkins[i].CheckPlayerProximity(playerPosition);
  }

  /** The dialogue state of one pumpkin. */
  datatype TalkState = TalkState(dialogues: seq<string>, index: JsIndex, active: bool, talking: bool, texture: Texture)

  function StateOf(p: PumpkinNPC): TalkState
    reads p
  {
    TalkState(p.dialogues, p.currentDialogueIndex, p.isDialogueActive, p.isTalking, p.headTexture)
  }

  /**
   * What one visit does to a pumpkin's dialogue state. Near with 't'
   * reaching it, an idle pumpkin starts talking at the first line and a
   * talking one moves on a line; out of range, a pumpkin still talking
   * stops; otherwise nothing changes. The lines themselves never change.
   */
  predicate Step(before: TalkState, after: TalkState, near: bool, talk: bool) {
    after.dialogues == before.dialogues &&
    if near && talk && !before.active then
      after.active && after.talking && after.index == Num(0) && after.texture == before.texture
    else if near && talk then
      after.index == NextIndex(before.index, |after.dialogues|) &&
      after.active == before.active && after.talking == before.talking && after.texture == before.texture
    else if !near && before.talking then
      !after.active && !after.talking && after.index == Num(0) && after.texture == NormalTexture
    else
      after == before
  }

  /** The dialogue state of one pumpkin is as before. */
  twostate predicate Kept(p: PumpkinNPC)
    reads p
  {
    StateOf(p) == old(StateOf(p))
  }

  /** Visiting a pumpkin changes its dialogue state as `Step` says. */
  twostate predicate Handled(p: PumpkinNPC, near: bool, talk: bool)
    reads p
  {
    Step(old(StateOf(p)), StateOf(p), near, talk)
  }

  /** The key map after the sweep: 't' is cleared exactly when it was held and some pumpkin was in range. */
  function KeysAfter(keys: map<string, bool>, consumed: bool): (r: map<string, bool>)
    ensures consumed ==> r == keys["t" := false] && !Pressed(r, "t")
    ensures !consumed ==> r == keys
    ensures r.Keys == keys.Keys + (if consumed then {"t"} else {})
  {
    if consumed then keys["t" := false] else keys
  }

  /**
   * `checkPumpkinInteraction` over a pumpkin list: each pumpkin is visited in
   * order; whether it is near is measured when it is visited, and 't' is
   * cleared by the first pumpkin in range that it reaches.
   */
  method Interact(pumpkins: seq<PumpkinNPC>, playerPosition: Vec3, input: Input)
    modifies input`keys, set p | p in pumpkins
    ensures input.keys ==
      KeysAfter(old(input.keys), Pressed(old(input.keys), "t") && old(NearBefore(pumpkins, playerPosition, |pumpkins|)))
    ensures Distinct(pumpkins) ==>
      forall i :: 0 <= i < |pumpkins| ==>
        Handled(pumpkins[i], old(pumpkins[i].CheckPlayerProximity(playerPosition)),
                old(TalkReaches(Pressed(input.keys, "t"), pumpkins, playerPosition, i)))
  {
    ghost var held := Pressed(input.keys, "t");
    var i := 0;
    while i < |pumpkins|
      invariant 0 <= i <= |pumpkins|
      invariant input.keys == KeysAfter(old(input.keys), held && old(NearBefore(pumpkins, playerPosition, i)))
      invariant Distinct(pumpkins) ==>
        forall j :: 0 <= j < i ==>
          Handled(pumpkins[j], old(pumpkins[j].CheckPlayerProximity(playerPosition)),
                  old(TalkReaches(held, pumpkins, playerPosition, j)))
      invariant Distinct(pumpkins) ==> forall j :: i <= j < |pumpkins| ==> Kept(pumpkins[j])
    {
      var p := pumpkins[i];
      NearBeforeStep(pumpkins, playerPosition, i);
      assert old(NearBefore(pumpkins, playerPosition, i + 1)) <==>
        old(NearBefore(pumpkins, playerPosition, i)) || old(p.CheckPlayerProximity(playerPosition));
      var near := Visit(p, playerPosition, input);
      assert near == old(p.CheckPlayerProximity(playerPosition));
      i := i + 1;
    }
  }

  /** Extending the prefix by one pumpkin adds exactly that pumpkin's verdict. */
  lemma NearBeforeStep(pumpkins: seq<PumpkinNPC>, playerPosition: Vec3, i: int)
    requires 0 <= i < |pumpkins|
    ensures NearBefore(pumpkins, playerPosition, i + 1) <==>
      NearBefore(pumpkins, playerPosition, i) || pumpkins[i].CheckPlayerProximity(playerPosition)
  {
    if pumpkins[i].CheckPlayerProximity(playerPosition) {
      assert 0 <= i < i + 1;
    }
  }

  /** One step of the sweep: the pumpkin is handled as its verdict and the held key say. */
  method Visit(p: PumpkinNPC, playerPosition: Vec3, input: Input) returns (near: bool)
    modifies input`keys, p
    ensures near == p.CheckPlayerProximity(playerPosition)
    ensures Handled(p, near, Pressed(old(input.keys), "t"))
    ensures input.keys == KeysAfter(old(input.keys), near && Pressed(old(input.keys), "t"))
  {
    near := p.CheckPlayerProximity(playerPosition);
    if near {
      if Pressed(input.keys, "t") {
        if !p.isDialogueActive {
          var _ := p.StartTalking();
        } else {
          var _ := p.ProgressDialogue();
        }
        input.keys := input.keys["t" := false];
      }
    } else if p.isTalking {
      var _ := p.StopTalking();
    }
  }

  /**
   * The pumpkin half of a room's `removeFromScene`: each pumpkin's group
   * leaves the scene and its body the world (the second `removeBody` of the
   * same body removes nothing).
   */
  method RemovePumpkins(pumpkins: seq<PumpkinNPC>, scene: Scene, world: World)
    requires LivesIn(pumpkins, scene, world)
    modifies scene, world
    ensures scene.nodes == old(scene.nodes) - Groups(pumpkins)
    ensures world.bodies == old(world.bodies) - PumpkinBodies(pumpkins)
  {
    var i := 0;
    while i < |pumpkins|
      invariant 0 <= i <= |pumpkins|
      invariant scene.nodes == old(scene.nodes) - Groups(pumpkins[..i])
      invariant world.bodies == old(world.bodies) - PumpkinBodies(pumpkins[..i])
    {
      var p := pumpkins[i];
      assert pumpkins[..i + 1] == pumpkins[..i] + [p];
      p.RemoveFromScene();
      world.RemoveBody(p.body);
      i := i + 1;
    }
    assert pumpkins[..i] == pumpkins;
  }

  /** The pumpkins' scene groups. */
  function Groups(pumpkins: seq<PumpkinNPC>): set<SceneNode> {
    set p | p in pumpkins :: p.group
  }

  /** The pumpkins' bodies. */
  function PumpkinBodies(pumpkins: seq<PumpkinNPC>): set<Body> {
    set p | p in pumpkins :: p.body
  }
}
