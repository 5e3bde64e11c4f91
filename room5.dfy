/**
 * `Room5`: four skeletons chase the player. A shot (`character-shoot`) hurts
 * every skeleton whose hit sphere the ray meets; one at no hit points is
 * spliced out of the list while the list is being walked, so the skeleton
 * after it is not looked at for that shot. When the list is empty the
 * pumpkin rewards a petal, once per game. Attacking skeletons in range
 * take a hit point from the player each frame.
 *
 * The ray test (`intersectSphere`) is the set of skeletons it meets; the
 * chase direction and turned orientation of each skeleton are functions
 * given by the caller; `performance.now()` is `now`.
 */
module SkeletonRoom {
  import opened Wrappers
  import opened Vectors
  import opened SceneGraph
  import opened InputController
  import opened Doors
  import opened Rooms
  import opened Npc
  import opened PumpkinTalk
  import opened Character
  import opened Enemies
  import opened Skeletons
  import opened SkeletonAnimation

  const Room5Doors: seq<Door> := [Door(Vec3(-1.5, -0.17, 0.0), NegHalfPi, 4)]

  const Room5Dialogues: seq<string> := [
    "Help me! Please kill the skeletons!",
    "Be careful, they're dangerous!",
    "You're our only hope to defeat them.",
    "Thank you for your bravery!"
  ]

  /** The single line the pumpkin says once the skeletons are defeated. */
  const RewardLine: string := "Thank you for defeating the skeletons! Here's a petal for your bravery."

  const SpawnPositions: seq<Vec3> := [
    Vec3(-1.0, 0.0, 1.0), Vec3(-1.2, 0.0, 1.0), Vec3(-1.0, 0.0, -1.0), Vec3(-1.0, 0.0, -1.2)
  ]

  /** The collider of the petal stand: a 0.1 × 0.2 × 0.1 box. */
  const StandHalfExtents: Vec3 := Vec3(0.05, 0.1, 0.05)
  const StandPosition: Vec3 := Vec3(-0.5, -0.5, -0.5)
  const PetalPosition: Vec3 := Vec3(-0.5, -0.35, -0.5)
  const PumpkinPosition: Vec3 := Vec3(-0.99, -0.45, 0.5)
  /** The distance under which an attacking skeleton hurts the player. */
  const DamageRange: real := 0.3

  /** No element appears twice. */
  predicate Unique<T(==)>(s: seq<T>) {
    forall a, b :: 0 <= a < b < |s| ==> s[a] != s[b]
  }

  /** A suffix of a list without repeats has none and shares nothing with the elements before it. */
  lemma UniqueDrop<T>(s: seq<T>, n: int)
    requires Unique(s) && 0 <= n <= |s|
    ensures Unique(s[n..])
    ensures forall i :: 0 <= i < n ==> s[i] !in s[n..]
  {
    forall a, b | 0 <= a < b < |s[n..]| ensures s[n..][a] != s[n..][b] {
      assert s[n..][a] == s[a + n] && s[n..][b] == s[b + n];
    }
    forall i | 0 <= i < n ensures s[i] !in s[n..] {
      forall j | 0 <= j < |s[n..]| ensures s[n..][j] != s[i] {
        assert s[n..][j] == s[j + n];
      }
    }
  }

  /** Putting an element not in a list without repeats in front keeps it without repeats. */
  lemma UniqueCons<T>(y: T, t: seq<T>)
    requires Unique(t) && y !in t
    ensures Unique([y] + t)
  {
    forall a, b | 0 <= a < b < |[y] + t| ensures ([y] + t)[a] != ([y] + t)[b] {
      assert ([y] + t)[b] == t[b - 1];
      if a > 0 {
        assert ([y] + t)[a] == t[a - 1];
      }
    }
  }

  /** Removing one element from a list without repeats leaves one without repeats. */
  lemma UniqueRemove<T>(s: seq<T>, k: int)
    requires Unique(s) && 0 <= k < |s|
    ensures Unique(s[..k] + s[k + 1..])
  {
    var t := s[..k] + s[k + 1..];
    forall a, b | 0 <= a < b < |t| ensures t[a] != t[b] {
      var a' := if a < k then a else a + 1;
      var b' := if b < k then b else b + 1;
      assert t[a] == s[a'] && t[b] == s[b'];
    }
  }

  /**
   * The list a `forEach` leaves when each visited element in `doomed` is
   * spliced out as it is visited: the element after a removed one moves
   * into the index just visited and is passed over.
   */
  function Sweep<T(==)>(s: seq<T>, doomed: set<T>): (r: seq<T>)
    ensures s != [] && s[0] !in doomed ==> r != [] && r[0] == s[0]
    ensures |s| >= 2 && s[0] in doomed ==> r != [] && r[0] == s[1]
    decreases |s|
  {
    if s == [] then []
    else if s[0] in doomed then (if |s| == 1 then [] else [s[1]] + Sweep(s[2..], doomed))
    else [s[0]] + Sweep(s[1..], doomed)
  }

  /** The elements that same `forEach` visits. */
  function Visited<T(==)>(s: seq<T>, doomed: set<T>): (v: set<T>)
    ensures s != [] ==> s[0] in v
    decreases |s|
  {
    if s == [] then {}
    else if s[0] in doomed then {s[0]} + (if |s| == 1 then {} else Visited(s[2..], doomed))
    else {s[0]} + Visited(s[1..], doomed)
  }

  /** The sweep keeps only elements of the list and visits only elements of the list. */
  lemma {:induction false} SweepWithin<T>(s: seq<T>, doomed: set<T>)
    ensures |Sweep(s, doomed)| <= |s|
    ensures forall x :: x in Sweep(s, doomed) ==> x in s
    ensures forall x :: x in Visited(s, doomed) ==> x in s
    decreases |s|
  {
    if s == [] {
    } else if s[0] in doomed && |s| > 1 {
      SweepWithin(s[2..], doomed);
      assert forall x :: x in s[2..] ==> x in s;
    } else if s[0] !in doomed {
      SweepWithin(s[1..], doomed);
      assert forall x :: x in s[1..] ==> x in s;
    }
  }

  /**
   * In a list without repeats an element stays after the sweep exactly when
   * it was not both visited and doomed, and the list left has no repeats.
   */
  lemma {:induction false} SweepRemovesVisitedDoomed<T>(s: seq<T>, doomed: set<T>)
    requires Unique(s)
    ensures forall x :: x in Sweep(s, doomed) <==> x in s && !(x in Visited(s, doomed) && x in doomed)
    ensures Unique(Sweep(s, doomed))
    decreases |s|
  {
    if s == [] {
    } else if s[0] in doomed && |s| > 1 {
      UniqueDrop(s, 2);
      SweepWithin(s[2..], doomed);
      SweepRemovesVisitedDoomed(s[2..], doomed);
      UniqueCons(s[1], Sweep(s[2..], doomed));
      assert s[0] != s[1];
      forall x | x in s ensures x == s[0] || x == s[1] || x in s[2..] {
        var i :| 0 <= i < |s| && s[i] == x;
        if i >= 2 {
          assert s[2..][i - 2] == x;
        }
      }
      assert Sweep(s, doomed) == [s[1]] + Sweep(s[2..], doomed);
      assert Visited(s, doomed) == {s[0]} + Visited(s[2..], doomed);
      forall x ensures x in Sweep(s, doomed) <==> x in s && !(x in Visited(s, doomed) && x in doomed) {
        if x == s[0] {
          assert x !in Sweep(s[2..], doomed);
        } else if x == s[1] {
          assert x !in Visited(s[2..], doomed);
        }
      }
      assert Unique(Sweep(s, doomed));
    } else if s[0] in doomed {
    } else {
      UniqueDrop(s, 1);
      SweepWithin(s[1..], doomed);
      SweepRemovesVisitedDoomed(s[1..], doomed);
      UniqueCons(s[0], Sweep(s[1..], doomed));
      forall x | x in s ensures x == s[0] || x in s[1..] {
        var i :| 0 <= i < |s| && s[i] == x;
        if i >= 1 {
          assert s[1..][i - 1] == x;
        }
      }
    }
  }

  /** The list without its doomed elements, in order. */
  function Filtered<T(==)>(s: seq<T>, doomed: set<T>): (r: seq<T>)
    ensures forall x :: x in s ==> (x in r <==> x !in doomed)
    ensures forall x :: x in r ==> x in s
    decreases |s|
  {
    if s == [] then []
    else if s[0] in doomed then Filtered(s[1..], doomed)
    else [s[0]] + Filtered(s[1..], doomed)
  }

  /**
   * With no two doomed elements side by side the sweep removes exactly the
   * doomed ones, keeping the order of the rest.
   */
  lemma {:induction false} SpacedSweepRemovesDoomed<T>(s: seq<T>, doomed: set<T>)
    requires forall i :: 0 <= i < |s| - 1 ==> !(s[i] in doomed && s[i + 1] in doomed)
    ensures Sweep(s, doomed) == Filtered(s, doomed)
    decreases |s|
  {
    if s == [] {
    } else if s[0] in doomed && |s| > 1 {
      assert s[1] !in doomed;
      SpacedSweepRemovesDoomed(s[2..], doomed);
      assert s[1..][0] == s[1] && s[1..][1..] == s[2..];
    } else if s[0] in doomed {
    } else {
      SpacedSweepRemovesDoomed(s[1..], doomed);
    }
  }

  /** A shot that kills nobody visits every skeleton and leaves the list as it was. */
  lemma {:induction false} NoKillVisitsAll<T>(s: seq<T>, doomed: set<T>)
    requires forall i :: 0 <= i < |s| ==> s[i] !in doomed
    ensures Visited(s, doomed) == Elements(s)
    ensures Sweep(s, doomed) == s
    decreases |s|
  {
    if s != [] {
      NoKillVisitsAll(s[1..], doomed);
      assert s == [s[0]] + s[1..];
      assert Elements(s) == {s[0]} + Elements(s[1..]) by {
        forall x | x in s ensures x == s[0] || x in s[1..] {
          var i :| 0 <= i < |s| && s[i] == x;
          if i >= 1 {
            assert s[1..][i - 1] == x;
          }
        }
      }
    }
  }

  /** Two doomed skeletons side by side: the second is passed over and survives the shot. */
  lemma NeighbourPassedOver<T>(a: T, b: T)
    requires a != b
    ensures Sweep([a, b], {a, b}) == [b]
    ensures b !in Visited([a, b], {a, b})
  {
    assert [a, b][2..] == [];
  }

  /** The skeletons a shot can damage: loaded (a mesh) and met by the ray. */
  function Hittable(ss: seq<EnemySkeleton>, hits: set<EnemySkeleton>): (r: set<EnemySkeleton>)
    reads set s | s in ss
    ensures forall s :: s in ss ==> (s in r <==> s.mesh != null && s in hits)
    ensures forall s :: s in r ==> s in ss
  {
    set s | s in ss && s.mesh != null && s in hits
  }

  /** The skeletons a shot kills if it reaches them: hittable with one hit point or fewer. */
  function Lethal(ss: seq<EnemySkeleton>, hits: set<EnemySkeleton>): (r: set<EnemySkeleton>)
    reads set s | s in ss
    ensures forall s :: s in ss ==> (s in r <==> s.mesh != null && s in hits && s.hp <= 1)
    ensures forall s :: s in r ==> s in ss
  {
    set s | s in ss && s.mesh != null && s in hits && s.hp <= 1
  }

  /** The skeletons a shot removes: lethal and actually visited. */
  function Killed(ss: seq<EnemySkeleton>, hits: set<EnemySkeleton>): set<EnemySkeleton>
    reads set s | s in ss
  {
    Visited(ss, Lethal(ss, hits)) * Lethal(ss, hits)
  }

  /** The meshes of some skeletons. */
  function MeshesOf(ss: set<EnemySkeleton>): set<SceneNode>
    reads ss`mesh
  {
    set s | s in ss && s.mesh != null :: s.mesh
  }

  /** The bodies of some skeletons. */
  function SkeletonBodies(ss: set<EnemySkeleton>): set<Body>
    reads ss`body
  {
    set s | s in ss && s.body != null :: s.body
  }

  /** Every listed skeleton that has a mesh has a body too. */
  predicate AllPaired(ss: seq<EnemySkeleton>)
    reads Elements(ss)`mesh, Elements(ss)`body
  {
    forall s :: s in ss ==> s.Paired()
  }

  /** Some listed skeleton has no body: its death throws. */
  predicate SomeUnbodied(ss: seq<EnemySkeleton>)
    reads set s | s in ss
  {
    exists i :: 0 <= i < |ss| && ss[i].body == null
  }

  /**
   * How many of the listed skeletons have their `die` run when they die in
   * turn: all of them, or those up to and including the first without a
   * body, whose death throws.
   */
  function DeathCount(ss: seq<EnemySkeleton>): (n: nat)
    reads set s | s in ss
    ensures n <= |ss|
    ensures n < |ss| ==> 0 < n && ss[n - 1].body == null
    decreases |ss|
  {
    if ss == [] then 0
    else if ss[0].body == null then 1
    else 1 + DeathCount(ss[1..])
  }

  /** Past a front whose members all have bodies, the deaths go on with the rest. */
  lemma {:induction false} DeathCountPast(ss: seq<EnemySkeleton>, i: nat)
    requires i <= |ss| && forall j :: 0 <= j < i ==> ss[j].body != null
    ensures DeathCount(ss) == i + DeathCount(ss[i..])
    decreases i
  {
    if i > 0 {
      DeathCountPast(ss[1..], i - 1);
      assert ss[1..][i - 1..] == ss[i..];
    }
  }

  /**
   * The deaths stop early exactly when some skeleton has no body, and then
   * at the first such skeleton: every earlier one has a body.
   */
  lemma DeathCountMeaning(ss: seq<EnemySkeleton>)
    ensures SomeUnbodied(ss) <==> 0 < DeathCount(ss) && ss[DeathCount(ss) - 1].body == null
    ensures forall j :: 0 <= j < DeathCount(ss) - 1 ==> ss[j].body != null
    ensures !SomeUnbodied(ss) ==> DeathCount(ss) == |ss|
  {
    var n := 0;
    while n < |ss| && ss[n].body != null
      invariant n <= |ss| && forall j :: 0 <= j < n ==> ss[j].body != null
    {
      n := n + 1;
    }
    DeathCountPast(ss, n);
    if n < |ss| {
      assert ss[n..][0] == ss[n];
    }
  }

  /**
   * Where a loop of deaths over `ss` ends, at `i` with or without a throw,
   * it has run exactly `DeathCount` deaths, and it threw exactly when some
   * skeleton has no body.
   */
  lemma DeathsReached(ss: seq<EnemySkeleton>, i: nat, crashed: bool)
    requires i <= |ss| && (i == |ss| || crashed)
    requires !crashed ==> forall j :: 0 <= j < i ==> ss[j].body != null
    requires crashed ==> 0 < i && ss[i - 1].body == null && forall j :: 0 <= j < i - 1 ==> ss[j].body != null
    ensures crashed <==> SomeUnbodied(ss)
    ensures DeathCount(ss) == i
  {
    if crashed {
      assert SomeUnbodied(ss) by {
        assert ss[i - 1].body == null;
      }
      DeathCountPast(ss, i - 1);
      assert ss[i - 1..][0] == ss[i - 1];
    } else {
      DeathCountPast(ss, i);
    }
  }

  /** One more skeleton adds its mesh and its body, if it has them. */
  lemma PartsOfOneMore(ss: set<EnemySkeleton>, s: EnemySkeleton)
    ensures MeshesOf(ss + {s}) == MeshesOf(ss) + MeshOf(s.mesh)
    ensures SkeletonBodies(ss + {s}) == SkeletonBodies(ss) + BodyOf(s.body)
  {
  }

  /** `indexOf`: the first position of `x`, or -1. */
  function IndexOf<T(==)>(s: seq<T>, x: T): (i: int)
    ensures -1 <= i
    ensures i == -1 <==> x !in s
    ensures 0 <= i ==> i < |s| && s[i] == x && x !in s[..i]
    decreases |s|
  {
    if s == [] then -1
    else if s[0] == x then 0
    else
      var j := IndexOf(s[1..], x);
      if j == -1 then -1
      else
        assert s[..j + 1] == [s[0]] + s[1..][..j];
        j + 1
  }

  /** In a list without repeats the first position of an element is its position. */
  lemma IndexOfUnique<T>(s: seq<T>, k: int)
    requires Unique(s) && 0 <= k < |s|
    ensures IndexOf(s, s[k]) == k
  {
  }

  /** An attacking skeleton in its attack state with its mesh in range of the player. */
  predicate Attacks(s: EnemySkeleton, playerPosition: Vec3)
    reads s, s.mesh
  {
    s.isAttacking && s.mesh != null && Near(s.mesh.position, playerPosition, DamageRange) &&
    s.currentState == Attacking
  }

  /** The hit points of a skeleton list, in list order. */
  function HpOf(ss: seq<EnemySkeleton>): (hp: seq<int>)
    reads set s | s in ss
    ensures |hp| == |ss| && forall j :: 0 <= j < |ss| ==> hp[j] == ss[j].hp
  {
    if ss == [] then [] else [ss[0].hp] + HpOf(ss[1..])
  }

  /** The meshes of a skeleton list, for reads clauses. */
  function Meshes(ss: seq<EnemySkeleton>): set<SceneNode>
    reads set s | s in ss
  {
    set s | s in ss && s.mesh != null :: s.mesh
  }

  /** The `filter` of `checkPlayerDamage`: the attackers, in list order. */
  function Attackers(ss: seq<EnemySkeleton>, playerPosition: Vec3): (r: seq<EnemySkeleton>)
    reads set s | s in ss
    reads Meshes(ss)
    ensures |r| <= |ss|
    ensures forall s :: s in ss ==> (s in r <==> Attacks(s, playerPosition))
    ensures forall s :: s in r ==> s in ss
    decreases |ss|
  {
    if ss == [] then []
    else
      var rest := Attackers(ss[1..], playerPosition);
      assert forall s :: s in ss ==> s == ss[0] || s in ss[1..];
      if Attacks(ss[0], playerPosition) then [ss[0]] + rest else rest
  }

  /** The bodies of a skeleton list, for frames. */
  function BodiesOfList(ss: seq<EnemySkeleton>): set<Body>
    reads set s | s in ss
  {
    set s | s in ss && s.body != null :: s.body
  }

  /** The animation systems of a skeleton list, for frames. */
  function Animators(ss: seq<EnemySkeleton>): set<SkeletonAnimationSystem>
    reads set s | s in ss
  {
    set s | s in ss && s.animationSystem != null :: s.animationSystem
  }

  /** The bone rigs those animation systems pose, for frames. */
  function Rigs(ss: seq<EnemySkeleton>): set<Skeleton>
    reads set s | s in ss
  {
    set s | s in ss && s.animationSystem != null :: s.animationSystem.skeleton
  }

  class Room5 {
    const base: RoomBase
    var pumpkins: seq<PumpkinNPC>
    /** `this.pumpkin`, the latest pumpkin made by `decorate`. */
    var pumpkin: PumpkinNPC?
    var skeletons: seq<EnemySkeleton>
    var petal: SceneNode?
    /** `pumpkinDialogues`, the lines the next pumpkin is given. */
    var dialogues: seq<string>
    var allSkeletonsDefeated: bool
    /** How many times the game-over screen has been requested. */
    var gameOvers: nat
    /** Whether the `character-shoot` listener bound in the constructor is still registered. */
    var boundListener: bool
    /**
     * The `character-shoot` listeners `decorate` has registered: each is a
     * fresh `bind` of the handler, which `removeFromScene` never removes.
     */
    var decorateListeners: nat

    /**
     * The pumpkins and skeletons are distinct and live in the room's scene
     * and world, and a non-empty pumpkin list has a latest pumpkin.
     */
    predicate Valid()
      reads this
    {
      Distinct(pumpkins) && LivesIn(pumpkins, base.scene, base.world) && (|pumpkins| > 0 ==> pumpkin != null) &&
      SkeletonsHere()
    }

    /** The skeleton half of `Valid`: no skeleton twice, each of this room's scene and world. */
    predicate SkeletonsHere()
      reads this`skeletons
    {
      Unique(skeletons) && forall s :: s in skeletons ==> s.scene == base.scene && s.world == base.world
    }

    constructor(config: RoomConfig, scene: Scene, world: World)
      ensures fresh(base) && base.scene == scene && base.world == world
      ensures base.id == config.id && base.size == config.size && base.position == config.position
      ensures base.connections == config.connections && base.doors == Some(Room5Doors)
      ensures base.mesh == null && base.physicsBodies == [] && base.decorativeObjects == [] && base.input == null
      ensures !base.texturesLoaded
      ensures pumpkins == [] && pumpkin == null && skeletons == [] && petal == null
      ensures dialogues == Room5Dialogues && !allSkeletonsDefeated && gameOvers == 0 && Valid()
      ensures boundListener && decorateListeners == 0
    {
      base := new RoomBase(config, Some(Room5Doors), scene, world);
      pumpkins := [];
      pumpkin := null;
      skeletons := [];
      petal := null;
      dialogues := Room5Dialogues;
      allSkeletonsDefeated := false;
      gameOvers := 0;
      boundListener := true;
      decorateListeners := 0;
    }

    /** How many times one `character-shoot` event runs `handleCharacterShoot`. */
    function ShootListeners(): nat
      reads this`boundListener, this`decorateListeners
    {
      (if boundListener then 1 else 0) + decorateListeners
    }

    /** Skeleton `s` is a new, unloaded skeleton of this room at spawn point `k`. */
    predicate Spawned(s: EnemySkeleton, k: nat)
      requires k < 4
      reads this, s
    {
      s.scene == base.scene && s.world == base.world && s.hitCenter == SpawnPositions[k] &&
      s.hp == Enemies.InitialHp && s.mesh == null && s.body == null && !s.isLoaded && !s.isAttacking
    }

    /**
     * The synchronous part of `decorate`: the stand's collider, a new pumpkin
     * speaking the room's current lines, and four new skeletons.
     */
    method Decorate() returns (standBody: Body, npc: PumpkinNPC)
      requires Valid()
      modifies this`pumpkins, this`pumpkin, this`skeletons, base`decorativeObjects, base.scene, base.world
      modifies this`decorateListeners
      ensures Valid()
      ensures decorateListeners == old(decorateListeners) + 1
      ensures fresh(standBody) && standBody.mass == 0.0
      ensures standBody.halfExtents == StandHalfExtents && standBody.position == StandPosition
      ensures fresh(npc) && fresh(npc.group) && fresh(npc.body) && pumpkin == npc
      ensures npc.group.position == PumpkinPosition && npc.dialogues == dialogues
      ensures pumpkins == old(pumpkins) + [npc]
      ensures base.decorativeObjects == old(base.decorativeObjects) + [Collider(standBody), Unattached]
      ensures base.scene.nodes == old(base.scene.nodes) + {npc.group}
      ensures base.world.bodies == old(base.world.bodies) + {standBody, npc.body}
      ensures |skeletons| == |old(skeletons)| + 4 && skeletons[..|old(skeletons)|] == old(skeletons)
      ensures forall k :: |old(skeletons)| <= k < |skeletons| ==> Spawned(skeletons[k], k - |old(skeletons)|)
    {
      standBody := base.AddStaticBox(StandHalfExtents, StandPosition);
      npc := new PumpkinNPC(base.scene, base.world, PumpkinPosition, dialogues);
      pumpkin := npc;
      pumpkins := pumpkins + [npc];
      base.AddDecorativeObject(Unattached);
      SpawnSkeletons();
      decorateListeners := decorateListeners + 1;
    }

    /** `spawnSkeletons`: four new skeletons at the spawn points, appended in order. */
    method SpawnSkeletons()
      requires Valid()
      modifies this`skeletons
      ensures Valid()
      ensures |skeletons| == |old(skeletons)| + 4 && skeletons[..|old(skeletons)|] == old(skeletons)
      ensures forall k :: |old(skeletons)| <= k < |skeletons| ==> Spawned(skeletons[k], k - |old(skeletons)|)
      ensures forall k :: |old(skeletons)| <= k < |skeletons| ==> fresh(skeletons[k])
    {
      var added: seq<EnemySkeleton> := [];
      var i := 0;
      while i < 4
        invariant 0 <= i <= 4 && |added| == i
        invariant skeletons == old(skeletons) + added
        invariant forall k :: 0 <= k < i ==> Spawned(added[k], k) && fresh(added[k])
        invariant Valid()
      {
        var s := new EnemySkeleton(base.scene, base.world, SpawnPositions[i]);
        UniqueSnoc(skeletons, s);
        skeletons := skeletons + [s];
        added := added + [s];
        i := i + 1;
      }
      assert forall k :: |old(skeletons)| <= k < |skeletons| ==> skeletons[k] == added[k - |old(skeletons)|];
    }

    /** The petal's load callback: placed on the stand, attached, recorded and remembered. */
    method OnPetalLoaded(n: SceneNode)
      modifies this`petal, n`position, base`decorativeObjects, base.scene
      ensures petal == n && n.position == PetalPosition
      ensures base.decorativeObjects == old(base.decorativeObjects) + [Node(n)]
      ensures base.scene.nodes == old(base.scene.nodes) + {n}
    {
      petal := n;
      base.PlaceLoadedModel(n, PetalPosition);
    }

    /**
     * `removeSkeletonFromScene`: a listed skeleton is spliced out and dies,
     * and the death throws when it has no body; any other is ignored.
     */
    method RemoveSkeletonFromScene(s: EnemySkeleton) returns (crashed: bool)
      requires s.scene == base.scene && s.world == base.world
      modifies this`skeletons, base.scene, base.world
      ensures crashed <==> IndexOf(old(skeletons), s) >= 0 && s.body == null
      ensures IndexOf(old(skeletons), s) >= 0 ==>
        var i := IndexOf(old(skeletons), s);
        skeletons == old(skeletons)[..i] + old(skeletons)[i + 1..] &&
        base.scene.nodes == old(base.scene.nodes) - MeshOf(s.mesh) &&
        base.world.bodies == old(base.world.bodies) - BodyOf(s.body)
      ensures IndexOf(old(skeletons), s) < 0 ==>
        skeletons == old(skeletons) && base.scene.nodes == old(base.scene.nodes) &&
        base.world.bodies == old(base.world.bodies)
    {
      crashed := false;
      var index := IndexOf(skeletons, s);
      if index > -1 {
        skeletons := skeletons[..index] + skeletons[index + 1..];
        crashed := s.Die();
      }
    }

    /**
     * One visit of the shot loop to the skeleton at `k`: a loaded skeleton
     * met by the ray loses a hit point and, at zero, leaves the list and dies.
     * Its body came with its mesh, so neither death throws.
     */
    method VisitSkeleton(k: nat, s: EnemySkeleton, hits: set<EnemySkeleton>) returns (removed: bool)
      requires SkeletonsHere() && k < |skeletons| && skeletons[k] == s && s.Paired()
      modifies this`skeletons, s`hp, base.scene, base.world
      ensures SkeletonsHere()
      ensures
        removed == (s.mesh != null && s in hits && old(s.hp) <= 1) &&
        s.hp == old(s.hp) - (if s.mesh != null && s in hits then 1 else 0)
      ensures removed ==>
        skeletons == old(skeletons[..k] + skeletons[k + 1..]) &&
        base.scene.nodes == old(base.scene.nodes) - MeshOf(old(skeletons[k]).mesh) &&
        base.world.bodies == old(base.world.bodies) - BodyOf(old(skeletons[k]).body)
      ensures !removed ==>
        skeletons == old(skeletons) && base.scene.nodes == old(base.scene.nodes) &&
        base.world.bodies == old(base.world.bodies)
    {
      assert s in skeletons;
      removed := false;
      if s.mesh != null && s in hits {
        var crashed := s.TakeDamage();
        assert !crashed;
        if s.hp <= 0 {
          IndexOfUnique(skeletons, k);
          UniqueRemove(skeletons, k);
          crashed := RemoveSkeletonFromScene(s);
          assert !crashed;
          removed := true;
        }
      }
    }

    /**
     * The `forEach` of `handleCharacterShoot`: every visited hittable
     * skeleton loses a hit point, the visited lethal ones leave the list,
     * the scene and the world, and the list left is the sweep's.
     */
    method ShotSweep(hits: set<EnemySkeleton>)
      requires SkeletonsHere() && AllPaired(skeletons)
      modifies this`skeletons, Elements(skeletons)`hp, base.scene, base.world
      ensures SkeletonsHere()
      ensures skeletons == old(Sweep(skeletons, Lethal(skeletons, hits)))
      ensures forall j :: 0 <= j < |old(skeletons)| ==>
        old(skeletons)[j].hp == old(skeletons[j].hp) -
          (if old(skeletons)[j] in old(Visited(skeletons, Lethal(skeletons, hits)) * Hittable(skeletons, hits))
           then 1 else 0)
      ensures base.scene.nodes == old(base.scene.nodes) - MeshesOf(old(Killed(skeletons, hits)))
      ensures base.world.bodies == old(base.world.bodies) - SkeletonBodies(old(Killed(skeletons, hits)))
    {
      ghost var s0 := skeletons;
      ghost var lethal := Lethal(skeletons, hits);
      ghost var hittable := Hittable(skeletons, hits);
      ghost var hp0 := HpOf(s0);
      ghost var killed := Killed(s0, hits);
      assert killed == Visited(s0, lethal) * lethal;
      ghost var nodes0, bodies0 := base.scene.nodes, base.world.bodies;
      ShotStart(hits, s0, lethal, hittable, hp0);
      ghost var kept, r, seen := ShotLoop(hits, s0, lethal, hittable, hp0, nodes0, bodies0);
      ShotEnd(hits, s0, lethal, hittable, hp0, kept, r, seen, nodes0, bodies0);
    }

    /** Before the first visit of the shot loop nothing has changed. */
    lemma ShotStart(hits: set<EnemySkeleton>, s0: seq<EnemySkeleton>, lethal: set<EnemySkeleton>,
                    hittable: set<EnemySkeleton>, hp0: seq<int>)
      requires SkeletonsHere() && skeletons == s0 && AllPaired(s0)
      requires lethal == Lethal(s0, hits) && hittable == Hittable(s0, hits)
      requires |hp0| == |s0| && forall j :: 0 <= j < |s0| ==> hp0[j] == s0[j].hp
      ensures SweepInv(0, hits, s0, lethal, hittable, hp0, [], 0, {}, base.scene.nodes, base.world.bodies)
    {
      SweepStart(s0, lethal);
      assert MeshesOf({}) == {} && SkeletonBodies({}) == {};
    }

    /** After the last visit the sweep is complete: every element has been visited or kept. */
    lemma ShotEnd(hits: set<EnemySkeleton>, s0: seq<EnemySkeleton>, lethal: set<EnemySkeleton>,
                  hittable: set<EnemySkeleton>, hp0: seq<int>, kept: seq<EnemySkeleton>, r: int,
                  seen: set<EnemySkeleton>, nodes0: set<SceneNode>, bodies0: set<Body>)
      requires r == |s0| && SweepInv(|s0|, hits, s0, lethal, hittable, hp0, kept, r, seen, nodes0, bodies0)
      ensures SkeletonsHere() && skeletons == Sweep(s0, lethal) && seen == Visited(s0, lethal)
      ensures forall j :: 0 <= j < |s0| ==> s0[j].hp == hp0[j] - (if s0[j] in seen * hittable then 1 else 0)
      ensures base.scene.nodes == nodes0 - MeshesOf(seen * lethal)
      ensures base.world.bodies == bodies0 - SkeletonBodies(seen * lethal)
    {
      assert s0[r..] == [];
    }

    /** The loop of `ShotSweep`, from the state before the first visit to the state after the last. */
    method ShotLoop(hits: set<EnemySkeleton>, ghost s0: seq<EnemySkeleton>,
                    ghost lethal: set<EnemySkeleton>, ghost hittable: set<EnemySkeleton>, ghost hp0: seq<int>,
                    ghost nodes0: set<SceneNode>, ghost bodies0: set<Body>)
      returns (ghost kept: seq<EnemySkeleton>, ghost r: int, ghost seen: set<EnemySkeleton>)
      requires skeletons == s0
      requires SweepInv(0, hits, s0, lethal, hittable, hp0, [], 0, {}, nodes0, bodies0)
      modifies this`skeletons, Elements(s0)`hp, base.scene, base.world
      ensures r == |s0| && SweepInv(|s0|, hits, s0, lethal, hittable, hp0, kept, r, seen, nodes0, bodies0)
    {
      kept, r, seen := [], 0, {};
      var len0 := |skeletons|;
      var k := 0;
      while k < len0
        invariant k <= len0 == |s0|
        invariant SweepInv(k, hits, s0, lethal, hittable, hp0, kept, r, seen, nodes0, bodies0)
        decreases len0 - k
      {
        kept, r, seen := ShotVisit(k, hits, s0, lethal, hittable, hp0, kept, r, seen, nodes0, bodies0);
        k := k + 1;
      }
    }

    /**
     * The state of the shot loop before index `k`: the sweep has got as far
     * as `r` in `s0`, hit points, scene and world reflect exactly the
     * visits so far, and every skeleton still has the body it loaded with.
     */
    ghost predicate SweepInv(k: int, hits: set<EnemySkeleton>, s0: seq<EnemySkeleton>,
                             lethal: set<EnemySkeleton>, hittable: set<EnemySkeleton>, hp0: seq<int>,
                             kept: seq<EnemySkeleton>, r: int, seen: set<EnemySkeleton>,
                             nodes0: set<SceneNode>, bodies0: set<Body>)
      reads this, base.scene, base.world, Elements(s0), seen
    {
      SweepProgress(k, s0, lethal, kept, r, seen) && Unique(s0) && AllPaired(s0) &&
      skeletons == kept + s0[r..] && SkeletonsHere() &&
      Classified(hits, s0, lethal, hittable, hp0) &&
      Accounted(base.scene, base.world, s0, hp0, seen, hittable, lethal, nodes0, bodies0)
    }

    /** `VisitSkeleton` on `s0[r]`, with the visit added to the account of the shot so far. */
    method AccountedVisit(k: nat, s: EnemySkeleton, hits: set<EnemySkeleton>, ghost s0: seq<EnemySkeleton>,
                          ghost hp0: seq<int>, ghost seen: set<EnemySkeleton>,
                          ghost hittable: set<EnemySkeleton>, ghost lethal: set<EnemySkeleton>,
                          ghost nodes0: set<SceneNode>, ghost bodies0: set<Body>, ghost r: int)
      returns (removed: bool)
      requires SkeletonsHere() && k < |skeletons| && skeletons[k] == s
      requires 0 <= r < |s0| == |hp0| && s == s0[r] && s !in seen && Unique(s0) && s.Paired()
      requires s in lethal <==> s.mesh != null && s in hits && hp0[r] <= 1
      requires s in hittable <==> s.mesh != null && s in hits
      requires Accounted(base.scene, base.world, s0, hp0, seen, hittable, lethal, nodes0, bodies0)
      modifies this`skeletons, s`hp, base.scene, base.world
      ensures SkeletonsHere()
      ensures removed <==> s in lethal
      ensures removed ==> skeletons == old(skeletons[..k] + skeletons[k + 1..])
      ensures !removed ==> skeletons == old(skeletons)
      ensures Accounted(base.scene, base.world, s0, hp0, seen + {s}, hittable, lethal, nodes0, bodies0)
    {
      removed := VisitSkeleton(k, s, hits);
    }

    /** One turn of the shot loop: the visit at index `k`, if the list still reaches it. */
    method ShotVisit(k: nat, hits: set<EnemySkeleton>, ghost s0: seq<EnemySkeleton>,
                     ghost lethal: set<EnemySkeleton>, ghost hittable: set<EnemySkeleton>, ghost hp0: seq<int>,
                     ghost kept: seq<EnemySkeleton>, ghost r: int, ghost seen: set<EnemySkeleton>,
                     ghost nodes0: set<SceneNode>, ghost bodies0: set<Body>)
      returns (ghost kept': seq<EnemySkeleton>, ghost r': int, ghost seen': set<EnemySkeleton>)
      requires k < |s0|
      requires SweepInv(k, hits, s0, lethal, hittable, hp0, kept, r, seen, nodes0, bodies0)
      modifies this`skeletons, Elements(s0)`hp, base.scene, base.world
      ensures SweepInv(k + 1, hits, s0, lethal, hittable, hp0, kept', r', seen', nodes0, bodies0)
    {
      kept', r', seen' := kept, r, seen;
      if k < |skeletons| {
        var s := skeletons[k];
        kept', r' := SweepAdvance(k, s0, lethal, kept, r, seen);
        assert s == s0[r] && skeletons[..k] == kept && skeletons[k + 1..] == s0[r + 1..];
        var removed := AccountedVisit(k, s, hits, s0, hp0, seen, hittable, lethal, nodes0, bodies0, r);
        seen' := seen + {s};
      } else {
        SweepIdle(k, s0, lethal, kept, r, seen);
      }
    }

    /** The latest pumpkin, as a set for frames. */
    function Talker(): (r: set<PumpkinNPC>)
      reads this
      ensures pumpkin != null <==> r == {pumpkin}
      ensures pumpkin == null <==> r == {}
    {
      if pumpkin == null then {} else {pumpkin}
    }

    /** The petal, as a set for frames. */
    function PetalNode(): (r: set<SceneNode>)
      reads this
      ensures petal != null <==> r == {petal}
      ensures petal == null <==> r == {}
    {
      if petal == null then {} else {petal}
    }

    /**
     * `handleCharacterShoot`: an event from another room (or with no room)
     * is ignored; otherwise the shot loop runs and the room checks whether
     * the skeletons are all gone.
     */
    method HandleCharacterShoot(event: ShootEvent, hits: set<EnemySkeleton>, player: CharacterModel)
      returns (rewarded: bool)
      requires Valid() && AllPaired(skeletons) && player.PetalsValid()
      modifies this`skeletons, Elements(skeletons)`hp, base.scene, base.world
      modifies this`allSkeletonsDefeated, this`dialogues, player`petalCount, player`hasAllPetals
      modifies Talker()`dialogues, Talker()`currentDialogueIndex, PetalNode()`visible
      ensures Valid() && player.PetalsValid()
      ensures event.currentRoomId != Some(base.id) ==>
        !rewarded && skeletons == old(skeletons) && allSkeletonsDefeated == old(allSkeletonsDefeated) &&
        base.scene.nodes == old(base.scene.nodes) && base.world.bodies == old(base.world.bodies) &&
        player.petalCount == old(player.petalCount) &&
        (forall s :: s in old(skeletons) ==> s.hp == old(s.hp))
      ensures event.currentRoomId == Some(base.id) ==>
        skeletons == old(Sweep(skeletons, Lethal(skeletons, hits))) &&
        base.scene.nodes == old(base.scene.nodes) - MeshesOf(old(Killed(skeletons, hits))) &&
        base.world.bodies == old(base.world.bodies) - SkeletonBodies(old(Killed(skeletons, hits)))
      ensures event.currentRoomId == Some(base.id) ==>
        forall j :: 0 <= j < |old(skeletons)| ==>
          old(skeletons)[j].hp == old(skeletons[j].hp) -
            (if old(skeletons)[j] in old(Visited(skeletons, Lethal(skeletons, hits)) * Hittable(skeletons, hits))
             then 1 else 0)
      ensures rewarded <==> event.currentRoomId == Some(base.id) && skeletons == [] && !old(allSkeletonsDefeated)
      ensures rewarded ==> Rewarded(player)
      ensures !rewarded ==>
        allSkeletonsDefeated == old(allSkeletonsDefeated) && player.petalCount == old(player.petalCount)
    {
      rewarded := false;
      if event.currentRoomId != Some(base.id) {
        return;
      }
      ShotSweep(hits);
      rewarded := CheckAllSkeletonsDefeated(player);
    }

    /**
     * One `character-shoot` event: each registered listener runs
     * `handleCharacterShoot` in turn, on the same ray. A skeleton therefore
     * loses up to one hit point per listener, and a lone skeleton in the
     * ray's path loses one per listener until it dies. The reward is given
     * at most once.
     */
    method DispatchShoot(event: ShootEvent, hits: set<EnemySkeleton>, player: CharacterModel)
      returns (rewards: nat)
      requires Valid() && AllPaired(skeletons) && player.PetalsValid()
      modifies this`skeletons, Elements(skeletons)`hp, base.scene, base.world
      modifies this`allSkeletonsDefeated, this`dialogues, player`petalCount, player`hasAllPetals
      modifies Talker()`dialogues, Talker()`currentDialogueIndex, PetalNode()`visible
      ensures Valid() && player.PetalsValid() && AllPaired(skeletons)
      ensures Elements(skeletons) <= old(Elements(skeletons))
      ensures forall s :: s in old(skeletons) ==> old(s.hp) - ShootListeners() <= s.hp <= old(s.hp)
      ensures event.currentRoomId != Some(base.id) ==>
        rewards == 0 && skeletons == old(skeletons) && (forall s :: s in old(skeletons) ==> s.hp == old(s.hp)) &&
        base.scene.nodes == old(base.scene.nodes) && base.world.bodies == old(base.world.bodies)
      ensures event.currentRoomId == Some(base.id) && |old(skeletons)| == 1 && old(skeletons)[0] in hits &&
              old(skeletons[0].mesh) != null && old(skeletons[0].hp) >= 1 ==>
        var s, n := old(skeletons)[0], ShootListeners();
        s.hp == old(s.hp) - (if n <= old(s.hp) then n else old(s.hp)) &&
        (skeletons == [] <==> old(s.hp) <= n) && (skeletons != [] ==> skeletons == [s])
      ensures rewards == (if allSkeletonsDefeated && !old(allSkeletonsDefeated) then 1 else 0)
      ensures old(allSkeletonsDefeated) ==> allSkeletonsDefeated
    {
      ghost var s0, flag0 := skeletons, allSkeletonsDefeated;
      ghost var hp0 := map s | s in s0 :: s.hp;
      assert forall s :: s in s0 ==> s in hp0 && hp0[s] == old(s.hp);
      ghost var nodes0, bodies0 := base.scene.nodes, base.world.bodies;
      rewards := DispatchAll(ShootListeners(), event, hits, player, s0, hp0, flag0, nodes0, bodies0);
    }

    /** The dispatch loop: `n` listener runs, one after another. */
    method DispatchAll(n: nat, event: ShootEvent, hits: set<EnemySkeleton>, player: CharacterModel,
                       ghost s0: seq<EnemySkeleton>, ghost hp0: map<EnemySkeleton, int>, ghost flag0: bool,
                       ghost nodes0: set<SceneNode>, ghost bodies0: set<Body>)
      returns (rewards: nat)
      requires Valid() && AllPaired(skeletons) && player.PetalsValid()
      requires skeletons == s0 && Dispatched(0, event, hits, s0, hp0, flag0, nodes0, bodies0, 0)
      modifies this`skeletons, Elements(skeletons)`hp, base.scene, base.world
      modifies this`allSkeletonsDefeated, this`dialogues, player`petalCount, player`hasAllPetals
      modifies Talker()`dialogues, Talker()`currentDialogueIndex, PetalNode()`visible
      ensures Valid() && AllPaired(skeletons) && player.PetalsValid()
      ensures Dispatched(n, event, hits, s0, hp0, flag0, nodes0, bodies0, rewards)
    {
      rewards := 0;
      var i := 0;
      while i < n
        invariant 0 <= i <= n
        invariant Valid() && player.PetalsValid() && AllPaired(skeletons)
        invariant Dispatched(i, event, hits, s0, hp0, flag0, nodes0, bodies0, rewards)
      {
        rewards := DispatchStep(event, hits, player, i, s0, hp0, flag0, nodes0, bodies0, rewards);
        i := i + 1;
      }
    }

    /**
     * The state after `i` listener runs of one shot event, measured against
     * the list `s0`, hit points `hp0`, flag `flag0`, scene `nodes0` and world
     * `bodies0` from before the event.
     */
    ghost predicate Dispatched(i: nat, event: ShootEvent, hits: set<EnemySkeleton>, s0: seq<EnemySkeleton>,
                               hp0: map<EnemySkeleton, int>, flag0: bool,
                               nodes0: set<SceneNode>, bodies0: set<Body>, rewards: nat)
      reads this, base, base.scene, base.world, Elements(s0)
    {
      (forall s :: s in s0 ==> s in hp0) &&
      Elements(skeletons) <= Elements(s0) &&
      (forall s :: s in s0 ==> hp0[s] - i <= s.hp <= hp0[s]) &&
      (event.currentRoomId != Some(base.id) ==>
        rewards == 0 && skeletons == s0 && (forall s :: s in s0 ==> s.hp == hp0[s]) &&
        base.scene.nodes == nodes0 && base.world.bodies == bodies0) &&
      (event.currentRoomId == Some(base.id) && |s0| == 1 && s0[0] in hits && s0[0].mesh != null &&
       hp0[s0[0]] >= 1 ==>
        s0[0].hp == hp0[s0[0]] - (if i <= hp0[s0[0]] then i else hp0[s0[0]]) &&
        (skeletons == [] <==> hp0[s0[0]] <= i) && (skeletons != [] ==> skeletons == [s0[0]])) &&
      rewards == (if allSkeletonsDefeated && !flag0 then 1 else 0) && (flag0 ==> allSkeletonsDefeated)
    }

    /** One more listener run of the dispatch loop. */
    method DispatchStep(event: ShootEvent, hits: set<EnemySkeleton>, player: CharacterModel, ghost i: nat,
                        ghost s0: seq<EnemySkeleton>, ghost hp0: map<EnemySkeleton, int>, ghost flag0: bool,
                        ghost nodes0: set<SceneNode>, ghost bodies0: set<Body>, rewards0: nat)
      returns (rewards: nat)
      requires Valid() && AllPaired(skeletons) && player.PetalsValid()
      requires Dispatched(i, event, hits, s0, hp0, flag0, nodes0, bodies0, rewards0)
      modifies this`skeletons, Elements(skeletons)`hp, base.scene, base.world
      modifies this`allSkeletonsDefeated, this`dialogues, player`petalCount, player`hasAllPetals
      modifies Talker()`dialogues, Talker()`currentDialogueIndex, PetalNode()`visible
      ensures Valid() && AllPaired(skeletons) && player.PetalsValid()
      ensures Dispatched(i + 1, event, hits, s0, hp0, flag0, nodes0, bodies0, rewards)
    {
      var rewarded := ListenerRun(event, hits, player);
      rewards := rewards0 + (if rewarded then 1 else 0);
    }

    /** One listener's run of `handleCharacterShoot`, as the dispatch loop needs it. */
    method ListenerRun(event: ShootEvent, hits: set<EnemySkeleton>, player: CharacterModel)
      returns (rewarded: bool)
      requires Valid() && AllPaired(skeletons) && player.PetalsValid()
      modifies this`skeletons, Elements(skeletons)`hp, base.scene, base.world
      modifies this`allSkeletonsDefeated, this`dialogues, player`petalCount, player`hasAllPetals
      modifies Talker()`dialogues, Talker()`currentDialogueIndex, PetalNode()`visible
      ensures Valid() && player.PetalsValid() && AllPaired(skeletons)
      ensures Elements(skeletons) <= old(Elements(skeletons))
      ensures forall s :: s in old(skeletons) ==> old(s.hp) - 1 <= s.hp <= old(s.hp)
      ensures event.currentRoomId != Some(base.id) ==>
        !rewarded && skeletons == old(skeletons) && (forall s :: s in old(skeletons) ==> s.hp == old(s.hp)) &&
        base.scene.nodes == old(base.scene.nodes) && base.world.bodies == old(base.world.bodies)
      ensures old(skeletons) == [] ==> skeletons == []
      ensures event.currentRoomId == Some(base.id) && |old(skeletons)| == 1 && old(skeletons)[0] in hits &&
              old(skeletons[0].mesh) != null ==>
        var s := old(skeletons)[0];
        s.hp == old(s.hp) - 1 && (skeletons == [] <==> old(s.hp) <= 1) && (skeletons != [] ==> skeletons == [s])
      ensures rewarded ==> allSkeletonsDefeated && !old(allSkeletonsDefeated)
      ensures !rewarded ==> allSkeletonsDefeated == old(allSkeletonsDefeated)
    {
      ghost var s0 := skeletons;
      ghost var lethal := Lethal(skeletons, hits);
      ghost var visited := Visited(skeletons, lethal);
      SweepWithin(s0, lethal);
      rewarded := HandleCharacterShoot(event, hits, player);
      forall s | s in s0
        ensures old(s.hp) - 1 <= s.hp <= old(s.hp)
      {
        var j :| 0 <= j < |s0| && s0[j] == s;
      }
    }

    /** What `rewardPlayerWithPetal` leaves behind, with the flag of `checkAllSkeletonsDefeated` set. */
    twostate predicate Rewarded(player: CharacterModel)
      reads this, player, Talker(), PetalNode()
    {
      allSkeletonsDefeated && player.petalCount == PetalsAfterAdd(old(player.petalCount)) &&
      (|pumpkins| > 0 ==> pumpkin != null && dialogues == [RewardLine] && pumpkin.dialogues == [RewardLine] &&
                          pumpkin.currentDialogueIndex == Num(0)) &&
      (|pumpkins| == 0 ==> dialogues == old(dialogues)) &&
      (petal != null ==> !petal.visible)
    }

    /**
     * `checkAllSkeletonsDefeated`: the first time the list is found empty
     * the flag is set and the player rewarded; afterwards nothing happens.
     */
    method CheckAllSkeletonsDefeated(player: CharacterModel) returns (rewarded: bool)
      requires Valid() && player.PetalsValid()
      modifies this`allSkeletonsDefeated, this`dialogues, player`petalCount, player`hasAllPetals
      modifies Talker()`dialogues, Talker()`currentDialogueIndex, PetalNode()`visible
      ensures Valid() && player.PetalsValid()
      ensures rewarded <==> skeletons == [] && !old(allSkeletonsDefeated)
      ensures rewarded ==> Rewarded(player)
      ensures !rewarded ==>
        allSkeletonsDefeated == old(allSkeletonsDefeated) && player.petalCount == old(player.petalCount)
    {
      rewarded := |skeletons| == 0 && !allSkeletonsDefeated;
      if rewarded {
        allSkeletonsDefeated := true;
        RewardPlayerWithPetal(player);
      }
    }

    /**
     * `rewardPlayerWithPetal`: a petal while the player holds fewer than
     * three; the pumpkin's lines become the single thank-you line from the
     * start; the petal on the stand is hidden.
     */
    method RewardPlayerWithPetal(player: CharacterModel)
      requires Valid() && player.PetalsValid() && allSkeletonsDefeated
      modifies this`dialogues, player`petalCount, player`hasAllPetals
      modifies Talker()`dialogues, Talker()`currentDialogueIndex, PetalNode()`visible
      ensures Valid() && player.PetalsValid()
      ensures Rewarded(player)
    {
      if player.GetPetalCount() < MaxPetals {
        player.AddPetal();
      }
      if |pumpkins| > 0 {
        dialogues := [RewardLine];
        pumpkin.dialogues := dialogues;
        pumpkin.currentDialogueIndex := Num(0);
      }
      if petal != null {
        petal.visible := false;
      }
    }

    /**
     * `checkPlayerDamage`: when some skeleton is attacking in range the
     * player loses one hit point (one, however many attack), and at zero
     * or below the game-over screen is requested.
     */
    method CheckPlayerDamage(playerPosition: Vec3, player: CharacterModel) returns (hurt: bool)
      modifies player`hp, this`gameOvers
      ensures hurt <==> exists j :: 0 <= j < |skeletons| && Attacks(skeletons[j], playerPosition)
      ensures player.hp == old(player.hp) - (if hurt then 1 else 0)
      ensures gameOvers == old(gameOvers) + (if hurt && player.hp <= 0 then 1 else 0)
    {
      var attacking := Attackers(skeletons, playerPosition);
      hurt := |attacking| > 0;
      if hurt {
        player.TakeDamage();
        if player.hp <= 0 {
          gameOvers := gameOvers + 1;
        }
      }
      if hurt {
        assert attacking[0] in skeletons;
      } else {
        forall j | 0 <= j < |skeletons| ensures !Attacks(skeletons[j], playerPosition) {
          assert skeletons[j] in skeletons;
        }
      }
    }

    /**
     * The `forEach` of `update` over the skeletons: each one steps toward
     * the player and may attack. `normalize` is the unit vector toward the
     * player and `turn` the slerped orientation, both supplied by the caller.
     * The list, the hit points, the scene and the world stay as they were.
     * A skeleton whose animation throws (`crashed`) ends the loop there, and
     * the exception leaves `update`.
     */
    method UpdateSkeletons(deltaTime: real, playerPosition: Vec3, now: real,
                           normalize: Vec3 -> Vec3, turn: (Quat, Vec3) -> Quat)
      returns (crashed: bool)
      modifies Elements(skeletons)`hitCenter, Elements(skeletons)`isAttacking
      modifies Elements(skeletons)`lastAttackTime, Elements(skeletons)`currentState
      modifies Meshes(skeletons), BodiesOfList(skeletons), Animators(skeletons), Rigs(skeletons)
      ensures forall s :: s in skeletons ==> s.hp == old(s.hp) && s.mesh == old(s.mesh) && s.body == old(s.body)
      ensures forall s :: s in skeletons && !old(s.Ready()) ==>
        !s.isAttacking || old(s.isAttacking)
      ensures forall s :: s in skeletons && old(s.isAttacking) ==> s.isAttacking
    {
      crashed := false;
      var i := 0;
      while i < |skeletons| && !crashed
        invariant 0 <= i <= |skeletons|
        invariant forall s :: s in skeletons ==> Steady(s)
      {
        crashed := ChaseOne(skeletons[i], deltaTime, playerPosition, now, normalize, turn);
        i := i + 1;
      }
    }

    /** One turn of that `forEach`: the direction and orientation toward the player, then the skeleton's `update`. */
    method ChaseOne(s: EnemySkeleton, deltaTime: real, playerPosition: Vec3, now: real,
                    normalize: Vec3 -> Vec3, turn: (Quat, Vec3) -> Quat)
      returns (crashed: bool)
      modifies s`hitCenter, s`isAttacking, s`lastAttackTime, s`currentState, s.mesh, s.body
      modifies s.animationSystem, if s.animationSystem != null then {s.animationSystem.skeleton} else {}
      ensures Steady(s)
    {
      var direction := if s.mesh != null then normalize(Sub(playerPosition, s.mesh.position)) else Vec3(0.0, 0.0, 0.0);
      var turned := if s.mesh != null then turn(s.mesh.quaternion, direction) else Quat(0.0, 0.0, 0.0, 1.0);
      var _, thrown := s.Update(deltaTime, playerPosition, now, direction, turned);
      crashed := thrown;
    }

    /** A skeleton kept its hit points and parts; one that was not ready kept its load flag and started no attack. */
    twostate predicate Steady(s: EnemySkeleton)
      reads s
    {
      s.hp == old(s.hp) && s.mesh == old(s.mesh) && s.body == old(s.body) &&
      s.animationSystem == old(s.animationSystem) &&
      (old(s.isAttacking) ==> s.isAttacking) &&
      (!old(s.Ready()) ==> s.isLoaded == old(s.isLoaded) && (!s.isAttacking || old(s.isAttacking)))
    }

    /** The skeleton half of `update`: the skeletons move, then an attacking skeleton in range hurts the player. */
    method Chase(deltaTime: real, playerPosition: Vec3, now: real,
                 normalize: Vec3 -> Vec3, turn: (Quat, Vec3) -> Quat, player: CharacterModel)
      returns (hurt: bool, crashed: bool)
      modifies Elements(skeletons)`hitCenter, Elements(skeletons)`isAttacking
      modifies Elements(skeletons)`lastAttackTime, Elements(skeletons)`currentState
      modifies Meshes(skeletons), BodiesOfList(skeletons), Animators(skeletons), Rigs(skeletons)
      modifies player`hp, this`gameOvers
      ensures skeletons == old(skeletons) && pumpkins == old(pumpkins) && pumpkin == old(pumpkin)
      ensures base.input == old(base.input) && (base.input != null ==> base.input.keys == old(base.input.keys))
      ensures forall p :: p in pumpkins ==> StateOf(p) == old(StateOf(p))
      ensures crashed ==> !hurt
      ensures !crashed ==> (hurt <==> exists j :: 0 <= j < |skeletons| && Attacks(skeletons[j], playerPosition))
      ensures player.hp == old(player.hp) - (if hurt then 1 else 0)
      ensures gameOvers == old(gameOvers) + (if hurt && player.hp <= 0 then 1 else 0)
      ensures forall s :: s in skeletons ==> s.hp == old(s.hp)
    {
      hurt := false;
      crashed := UpdateSkeletons(deltaTime, playerPosition, now, normalize, turn);
      if crashed {
        return;
      }
      hurt := CheckPlayerDamage(playerPosition, player);
    }

    /**
     * `update`: the skeletons move, then an attacking skeleton in range
     * hurts the player, then the pumpkins handle the talk key, each judged
     * near or far where it stands after the skeletons moved. A skeleton
     * animation that throws (`crashed`) skips the damage check and the talk
     * key.
     */
    method Update(deltaTime: real, playerPosition: Vec3, now: real,
                  normalize: Vec3 -> Vec3, turn: (Quat, Vec3) -> Quat, player: CharacterModel)
      returns (hurt: bool, crashed: bool)
      requires Valid() && base.input != null
      modifies Elements(skeletons)`hitCenter, Elements(skeletons)`isAttacking
      modifies Elements(skeletons)`lastAttackTime, Elements(skeletons)`currentState
      modifies Meshes(skeletons), BodiesOfList(skeletons), Animators(skeletons), Rigs(skeletons)
      modifies player`hp, this`gameOvers, base.input`keys, set p | p in pumpkins
      ensures skeletons == old(skeletons) && pumpkins == old(pumpkins) && base.input == old(base.input)
      ensures Valid()
      ensures crashed ==> !hurt
      ensures !crashed ==> (hurt <==> exists j :: 0 <= j < |skeletons| && Attacks(skeletons[j], playerPosition))
      ensures player.hp == old(player.hp) - (if hurt then 1 else 0)
      ensures gameOvers == old(gameOvers) + (if hurt && player.hp <= 0 then 1 else 0)
      ensures forall s :: s in skeletons ==> s.hp == old(s.hp)
      ensures crashed ==>
        base.input.keys == old(base.input.keys) && forall p :: p in pumpkins ==> StateOf(p) == old(StateOf(p))
      ensures !crashed ==>
        base.input.keys ==
        KeysAfter(old(base.input.keys),
                  Pressed(old(base.input.keys), "t") && NearBefore(pumpkins, playerPosition, |pumpkins|))
      ensures !crashed ==> forall i :: 0 <= i < |pumpkins| ==>
        Step(old(StateOf(pumpkins[i])), StateOf(pumpkins[i]), pumpkins[i].CheckPlayerProximity(playerPosition),
             TalkReaches(Pressed(old(base.input.keys), "t"), pumpkins, playerPosition, i))
    {
      hurt, crashed := Chase(deltaTime, playerPosition, now, normalize, turn, player);
      TalkUnless(crashed, playerPosition);
    }

    /** The talk half of `update`, which a thrown skeleton animation never reaches. */
    method TalkUnless(crashed: bool, playerPosition: Vec3)
      requires Distinct(pumpkins) && base.input != null
      modifies base.input`keys, set p | p in pumpkins
      ensures crashed ==>
        base.input.keys == old(base.input.keys) && forall p :: p in pumpkins ==> StateOf(p) == old(StateOf(p))
      ensures !crashed ==>
        base.input.keys ==
        KeysAfter(old(base.input.keys),
                  Pressed(old(base.input.keys), "t") && NearBefore(pumpkins, playerPosition, |pumpkins|))
      ensures !crashed ==> forall i :: 0 <= i < |pumpkins| ==>
        Step(old(StateOf(pumpkins[i])), StateOf(pumpkins[i]), pumpkins[i].CheckPlayerProximity(playerPosition),
             TalkReaches(Pressed(old(base.input.keys), "t"), pumpkins, playerPosition, i))
    {
      if !crashed {
        Interact(pumpkins, playerPosition, base.input);
      }
    }

    /**
     * The skeleton half of `removeFromScene`: the skeletons die in turn and
     * the list is emptied. The first skeleton without a body throws
     * (`crashed`) in its death, which ends the loop and keeps the list, so
     * the meshes and bodies removed are those of the first `DeathCount`
     * skeletons.
     */
    method KillAll() returns (crashed: bool)
      requires SkeletonsHere()
      modifies this`skeletons, base.scene, base.world
      ensures SkeletonsHere()
      ensures crashed <==> old(SomeUnbodied(skeletons))
      ensures !crashed ==> skeletons == []
      ensures crashed ==> skeletons == old(skeletons)
      ensures base.scene.nodes == old(base.scene.nodes) - MeshesOf(old(Elements(skeletons[..DeathCount(skeletons)])))
      ensures base.world.bodies == old(base.world.bodies) - SkeletonBodies(old(Elements(skeletons[..DeathCount(skeletons)])))
    {
      ghost var dying := Elements(skeletons[..DeathCount(skeletons)]);
      assert old(Elements(skeletons[..DeathCount(skeletons)])) == dying && old(SomeUnbodied(skeletons)) == SomeUnbodied(skeletons);
      var i;
      crashed, i := DieInTurn(skeletons);
      DeathsReached(skeletons, i, crashed);
      if !crashed {
        skeletons := [];
      }
    }

    /** The `forEach` of `KillAll`: deaths in turn until one throws; `i` deaths have run. */
    method DieInTurn(ss: seq<EnemySkeleton>) returns (crashed: bool, i: nat)
      requires forall s :: s in ss ==> s.scene == base.scene && s.world == base.world
      modifies base.scene, base.world
      ensures i <= |ss| && (i == |ss| || crashed)
      ensures !crashed ==> forall j :: 0 <= j < i ==> ss[j].body != null
      ensures crashed ==> 0 < i && ss[i - 1].body == null && forall j :: 0 <= j < i - 1 ==> ss[j].body != null
      ensures base.scene.nodes == old(base.scene.nodes) - MeshesOf(Elements(ss[..i]))
      ensures base.world.bodies == old(base.world.bodies) - SkeletonBodies(Elements(ss[..i]))
    {
      crashed := false;
      i := 0;
      while i < |ss| && !crashed
        invariant 0 <= i <= |ss|
        invariant !crashed ==> forall j :: 0 <= j < i ==> ss[j].body != null
        invariant crashed ==> 0 < i && ss[i - 1].body == null && forall j :: 0 <= j < i - 1 ==> ss[j].body != null
        invariant base.scene.nodes == old(base.scene.nodes) - MeshesOf(Elements(ss[..i]))
        invariant base.world.bodies == old(base.world.bodies) - SkeletonBodies(Elements(ss[..i]))
      {
        crashed := DieNext(ss, i, old(base.scene.nodes), old(base.world.bodies));
        i := i + 1;
      }
    }

    /** One death of `DieInTurn`: the removals so far grow by the next skeleton's mesh and body. */
    method DieNext(ss: seq<EnemySkeleton>, i: nat, ghost nodes0: set<SceneNode>, ghost bodies0: set<Body>)
      returns (crashed: bool)
      requires i < |ss| && ss[i].scene == base.scene && ss[i].world == base.world
      requires base.scene.nodes == nodes0 - MeshesOf(Elements(ss[..i]))
      requires base.world.bodies == bodies0 - SkeletonBodies(Elements(ss[..i]))
      modifies base.scene, base.world
      ensures crashed <==> ss[i].body == null
      ensures base.scene.nodes == nodes0 - MeshesOf(Elements(ss[..i + 1]))
      ensures base.world.bodies == bodies0 - SkeletonBodies(Elements(ss[..i + 1]))
    {
      var s := ss[i];
      assert Elements(ss[..i + 1]) == Elements(ss[..i]) + {s} by {
        assert ss[..i + 1] == ss[..i] + [s];
      }
      PartsOfOneMore(Elements(ss[..i]), s);
      crashed := s.Die();
    }

    /**
     * `removeFromScene`: the base teardown; the pumpkins; a second pass over
     * the (now empty) decorations; then the skeleton half, `KillAll`, which
     * throws (`crashed`) at a skeleton without a body. Without a throw the
     * constructor's shoot listener is removed; the ones `decorate` added stay.
     */
    method RemoveFromScene() returns (crashed: bool)
      requires Valid()
      modifies this`pumpkins, this`skeletons, base`decorativeObjects, base.scene, base.world, this`boundListener
      ensures Valid() && pumpkins == [] && base.decorativeObjects == []
      ensures boundListener == (old(boundListener) && crashed)
      ensures crashed <==> old(SomeUnbodied(skeletons))
      ensures !crashed ==> skeletons == []
      ensures crashed ==> skeletons == old(skeletons)
      ensures base.scene.nodes ==
        old(base.scene.nodes) - MeshOf(base.mesh) - NodesOf(old(base.decorativeObjects)) -
        Groups(old(pumpkins)) - MeshesOf(old(Elements(skeletons[..DeathCount(skeletons)])))
      ensures base.world.bodies ==
        old(base.world.bodies) - Rooms.BodiesOf(old(base.decorativeObjects)) - PumpkinBodies(old(pumpkins)) -
        SkeletonBodies(old(Elements(skeletons[..DeathCount(skeletons)])))
    {
      ghost var dying := Elements(skeletons[..DeathCount(skeletons)]);
      ghost var unbodied := SomeUnbodied(skeletons);
      assert old(Elements(skeletons[..DeathCount(skeletons)])) == dying && old(SomeUnbodied(skeletons)) == unbodied;
      RemoveAllButSkeletons();
      assert Elements(skeletons[..DeathCount(skeletons)]) == dying && SomeUnbodied(skeletons) == unbodied;
      crashed := KillAll();
      if !crashed {
        boundListener := false;
      }
    }

    /** `removeFromScene` up to the skeletons: the base teardown, the pumpkins and the decorations. */
    method RemoveAllButSkeletons()
      requires Valid()
      modifies this`pumpkins, base`decorativeObjects, base.scene, base.world
      ensures Valid() && pumpkins == [] && base.decorativeObjects == []
      ensures base.scene.nodes ==
        old(base.scene.nodes) - MeshOf(base.mesh) - NodesOf(old(base.decorativeObjects)) - Groups(old(pumpkins))
      ensures base.world.bodies ==
        old(base.world.bodies) - Rooms.BodiesOf(old(base.decorativeObjects)) - PumpkinBodies(old(pumpkins))
    {
      base.RemoveFromScene();
      RemovePumpkins(pumpkins, base.scene, base.world);
      base.RemoveDecorativeObjects();
      pumpkins := [];
    }
  }

  /**
   * Hit points, scene and world after the visits `seen`: each visited
   * hittable skeleton has lost one hit point, and the visited lethal ones
   * have left the scene and the world.
   */
  ghost predicate Accounted(scene: Scene, world: World, s0: seq<EnemySkeleton>, hp0: seq<int>,
                            seen: set<EnemySkeleton>, hittable: set<EnemySkeleton>, lethal: set<EnemySkeleton>,
                            nodes0: set<SceneNode>, bodies0: set<Body>)
    reads scene, world, Elements(s0)`hp, seen`mesh, seen`body
  {
    |hp0| == |s0| &&
    (forall j :: 0 <= j < |s0| ==> s0[j].hp == hp0[j] - (if s0[j] in seen * hittable then 1 else 0)) &&
    scene.nodes == nodes0 - MeshesOf(seen * lethal) &&
    world.bodies == bodies0 - SkeletonBodies(seen * lethal)
  }

  /** Each listed skeleton's membership in `lethal` and `hittable` is as the shot found it. */
  ghost predicate Classified(hits: set<EnemySkeleton>, s0: seq<EnemySkeleton>,
                             lethal: set<EnemySkeleton>, hittable: set<EnemySkeleton>, hp0: seq<int>)
    reads Elements(s0)`mesh
  {
    |hp0| == |s0| &&
    forall j :: 0 <= j < |s0| ==>
      (s0[j] in lethal <==> s0[j].mesh != null && s0[j] in hits && hp0[j] <= 1) &&
      (s0[j] in hittable <==> s0[j].mesh != null && s0[j] in hits)
  }

  /**
   * How far a `forEach` that splices out the `doomed` elements it visits has
   * got before index `k`: it has reached `s0[r]`, kept `kept` and visited `seen`.
   */
  ghost predicate SweepProgress<T>(k: int, s0: seq<T>, doomed: set<T>, kept: seq<T>, r: int, seen: set<T>) {
    0 <= |kept| <= r <= |s0| && 0 <= k && (k == |kept| || (k > |kept| && r == |s0|)) &&
    Sweep(s0, doomed) == kept + Sweep(s0[r..], doomed) &&
    Visited(s0, doomed) == seen + Visited(s0[r..], doomed) &&
    (forall x :: x in seen ==> x in s0[..r])
  }

  /**
   * The visit at index `k` reaches `s0[r]`, not visited before, and moves the
   * sweep on to `r2`, keeping `kept2`: past the next element after a removal,
   * and past this one otherwise.
   */
  lemma SweepAdvance<T>(k: int, s0: seq<T>, doomed: set<T>, kept: seq<T>, r: int, seen: set<T>)
    returns (kept2: seq<T>, r2: int)
    requires SweepProgress(k, s0, doomed, kept, r, seen) && Unique(s0) && k < |kept| + |s0| - r
    ensures k == |kept| && r < |s0| && s0[r] !in seen
    ensures SweepProgress(k + 1, s0, doomed, kept2, r2, seen + {s0[r]})
    ensures s0[r] in doomed ==> kept2 + s0[r2..] == kept + s0[r + 1..]
    ensures s0[r] !in doomed ==> kept2 + s0[r2..] == kept + s0[r..]
  {
    SweepCases(k, s0, doomed, kept, r, seen);
    if s0[r] in doomed {
      if r + 1 < |s0| {
        ShiftOne(kept, s0, r + 1);
        kept2, r2 := kept + [s0[r + 1]], r + 2;
      } else {
        kept2, r2 := kept, r + 1;
      }
    } else {
      ShiftOne(kept, s0, r);
      kept2, r2 := kept + [s0[r]], r + 1;
    }
  }

  /** The three ways one visit can move the sweep on. */
  lemma SweepCases<T>(k: int, s0: seq<T>, doomed: set<T>, kept: seq<T>, r: int, seen: set<T>)
    requires SweepProgress(k, s0, doomed, kept, r, seen) && Unique(s0) && k < |kept| + |s0| - r
    ensures k == |kept| && r < |s0| && s0[r] !in seen
    ensures s0[r] in doomed && r + 1 < |s0| ==>
      SweepProgress(k + 1, s0, doomed, kept + [s0[r + 1]], r + 2, seen + {s0[r]})
    ensures s0[r] in doomed && r + 1 == |s0| ==> SweepProgress(k + 1, s0, doomed, kept, r + 1, seen + {s0[r]})
    ensures s0[r] !in doomed ==> SweepProgress(k + 1, s0, doomed, kept + [s0[r]], r + 1, seen + {s0[r]})
  {
    UniqueDrop(s0, r);
    if s0[r] in doomed && r + 1 < |s0| {
      SweepCaseSkip(k, s0, doomed, kept, r, seen);
    } else {
      SweepCaseOne(k, s0, doomed, kept, r, seen);
    }
  }

  /** A removal at the end, or a kept element: the sweep moves past this one element. */
  lemma SweepCaseOne<T>(k: int, s0: seq<T>, doomed: set<T>, kept: seq<T>, r: int, seen: set<T>)
    requires SweepProgress(k, s0, doomed, kept, r, seen) && k < |kept| + |s0| - r
    requires !(s0[r] in doomed && r + 1 < |s0|)
    ensures s0[r] in doomed ==> SweepProgress(k + 1, s0, doomed, kept, r + 1, seen + {s0[r]})
    ensures s0[r] !in doomed ==> SweepProgress(k + 1, s0, doomed, kept + [s0[r]], r + 1, seen + {s0[r]})
  {
    SweepStep(s0, r, doomed);
    assert s0[..r + 1] == s0[..r] + [s0[r]];
  }

  /** A removal before the end: the next element is passed over into the kept list. */
  lemma SweepCaseSkip<T>(k: int, s0: seq<T>, doomed: set<T>, kept: seq<T>, r: int, seen: set<T>)
    requires SweepProgress(k, s0, doomed, kept, r, seen) && Unique(s0) && k < |kept| + |s0| - r
    requires s0[r] in doomed && r + 1 < |s0|
    ensures SweepProgress(k + 1, s0, doomed, kept + [s0[r + 1]], r + 2, seen + {s0[r]})
  {
    SweepStep(s0, r, doomed);
    assert s0[..r + 2] == s0[..r] + [s0[r], s0[r + 1]];
  }

  /** Before the first visit nothing is kept or visited, and the whole list is still to come. */
  lemma SweepStart<T>(s0: seq<T>, doomed: set<T>)
    ensures SweepProgress(0, s0, doomed, [], 0, {})
  {
    assert s0[0..] == s0;
  }

  /** A turn past the end of the shortened list changes nothing but the index. */
  lemma SweepIdle<T>(k: int, s0: seq<T>, doomed: set<T>, kept: seq<T>, r: int, seen: set<T>)
    requires SweepProgress(k, s0, doomed, kept, r, seen) && k >= |kept| + |s0| - r
    ensures SweepProgress(k + 1, s0, doomed, kept, r, seen)
  {
  }

  /** Appending an element not in a list without repeats keeps it without repeats. */
  lemma UniqueSnoc<T>(t: seq<T>, y: T)
    requires Unique(t) && y !in t
    ensures Unique(t + [y])
  {
    forall a, b | 0 <= a < b < |t + [y]| ensures (t + [y])[a] != (t + [y])[b] {
      assert (t + [y])[a] == t[a];
      if b < |t| {
        assert (t + [y])[b] == t[b];
      }
    }
  }

  /** Moving the head of the rest onto the end of the prefix keeps the whole list. */
  lemma ShiftOne<T>(kept: seq<T>, s0: seq<T>, r: int)
    requires 0 <= r < |s0|
    ensures kept + s0[r..] == (kept + [s0[r]]) + s0[r + 1..]
  {
    assert s0[r..] == [s0[r]] + s0[r + 1..];
  }

  /** How one visit of the sweep at position `r` unfolds the rest of the sweep. */
  lemma SweepStep<T>(s0: seq<T>, r: int, doomed: set<T>)
    requires 0 <= r < |s0|
    ensures s0[r..] == [s0[r]] + s0[r + 1..]
    ensures r + 1 < |s0| ==> s0[r + 1..] == [s0[r + 1]] + s0[r + 2..]
    ensures s0[r] in doomed && r + 1 < |s0| ==>
      Sweep(s0[r..], doomed) == [s0[r + 1]] + Sweep(s0[r + 2..], doomed) &&
      Visited(s0[r..], doomed) == {s0[r]} + Visited(s0[r + 2..], doomed)
    ensures s0[r] in doomed && r + 1 == |s0| ==>
      Sweep(s0[r..], doomed) == [] && Visited(s0[r..], doomed) == {s0[r]} && s0[r + 1..] == []
    ensures s0[r] !in doomed ==>
      Sweep(s0[r..], doomed) == [s0[r]] + Sweep(s0[r + 1..], doomed) &&
      Visited(s0[r..], doomed) == {s0[r]} + Visited(s0[r + 1..], doomed)
  {
    assert s0[r..][1..] == s0[r + 1..];
    if r + 1 < |s0| {
      assert s0[r..][2..] == s0[r + 2..];
    }
  }
}
