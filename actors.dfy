/** The player's and the enemies' state and how it changes: damage, pickups, the
    game-over check, the values carried across a level restart, the whip attack and the
    enemy registry. */
module Actors {
  import opened Options
  import opened Lists
  import opened Grid
  import opened Moves

  /** `Mathf.Clamp` on ints. */
  function Clamp(value: int, min: int, max: int): (r: int)
    requires min <= max
    ensures min <= r <= max
    ensures min <= value <= max ==> r == value
    ensures value < min ==> r == min
    ensures value > max ==> r == max
  {
    if value < min then min else if value > max then max else value
  }

  /** The health range the player's health is clamped to. */
  const MaxHealth := 100

  /** What `OnTriggerEnter2D` adds for one food pickup. */
  const FoodPoints := 10

  /** The state carried from one level to the next: what `Restart` stores and `Start`
      loads. GameManager.cs is not part of this model; its fields and list are kept here
      as plain fields. */
  class GameManager {
    var playerScore: int
    var playerHealth: int
    var enemies: seq<Enemy>

    constructor(score: int, health: int)
      ensures playerScore == score && playerHealth == health && enemies == []
    {
      playerScore := score;
      playerHealth := health;
      enemies := [];
    }

    /** `AddEnemyToList`: the registry is a `List<Enemy>` that `Add` appends to. */
    method AddEnemyToList(script: Enemy)
      modifies this`enemies
      ensures enemies == old(enemies) + [script]
    {
      enemies := enemies + [script];
    }

    /** `RemoveEnemyFromList`: `List.Remove` takes out the first occurrence. */
    method RemoveEnemyFromList(script: Enemy)
      modifies this`enemies
      ensures enemies == Remove(old(enemies), script)
      ensures multiset(enemies) == multiset(old(enemies)) - multiset{script}
    {
      RemoveCount(enemies, script);
      enemies := Remove(enemies, script);
    }
  }

  /** A physics hit of the whip's circle cast: the tag of the collider and the `Enemy`
      component of the object it belongs to (only read when the tag is "Enemy"). */
  datatype Hit = Hit(tag: string, enemy: Enemy)

  /** The hit `hitEnemies` acts on: the first one, in result order, tagged "Enemy". */
  function FirstEnemy(hits: seq<Hit>): (r: Option<nat>)
    ensures r.Some? ==> r.value < |hits| && hits[r.value].tag == "Enemy"
    ensures r.Some? ==> forall j :: 0 <= j < r.value ==> hits[j].tag != "Enemy"
    ensures r.None? ==> forall j :: 0 <= j < |hits| ==> hits[j].tag != "Enemy"
    decreases |hits|
  {
    if hits == [] then None
    else if hits[0].tag == "Enemy" then Some(0)
    else match FirstEnemy(hits[1..])
      case None => None
      case Some(k) => Some(k + 1)
  }

  class Player {
    var health: int
    var score: int
    var gameOver: bool
    /** `MonoBehaviour.enabled`: false once the player reaches the exit. */
    var enabled: bool
    /** `spriteRenderer.flipX`. */
    var flipX: bool
    /** Whether `Invoke("Restart", restartLevelDelay)` is pending. */
    var restartPending: bool
    /** How many times the death sequence (animation, music stop, `GameOver` after a
        delay) has been started. */
    var deathSequences: nat
    const whipDamage: int

    /** The serialized defaults: health 100, score 0, whip damage 2. */
    constructor()
      ensures health == MaxHealth && score == 0 && whipDamage == 2
      ensures !gameOver && enabled && !flipX && !restartPending && deathSequences == 0
    {
      health := MaxHealth;
      score := 0;
      whipDamage := 2;
      gameOver := false;
      enabled := true;
      flipX := false;
      restartPending := false;
      deathSequences := 0;
    }

    /** `Start`: the score and health a level begins with are the ones the game manager
        carries over (the values first parsed from the UI texts are overwritten). */
    method Start(gm: GameManager)
      modifies this`score, this`health
      ensures score == gm.playerScore && health == gm.playerHealth
    {
      score := gm.playerScore;
      health := gm.playerHealth;
    }

    /** `CheckIfGameOver`: at health 0 the game is over. There is no guard, so every call
        at health 0 starts the death sequence again. */
    method CheckIfGameOver()
      modifies this`gameOver, this`deathSequences
      ensures gameOver == (old(gameOver) || health == 0)
      ensures deathSequences == old(deathSequences) + (if health == 0 then 1 else 0)
    {
      if health == 0 {
        gameOver := true;
        deathSequences := deathSequences + 1;
      }
    }

    /** `LoseHealth`: health drops by `loss`, clamped to [0, 100], then the game-over
        check runs. */
    method LoseHealth(loss: int)
      modifies this`health, this`gameOver, this`deathSequences
      ensures health == Clamp(old(health) - loss, 0, MaxHealth)
      ensures 0 <= health <= MaxHealth
      ensures gameOver == (old(gameOver) || health == 0)
      ensures deathSequences == old(deathSequences) + (if health == 0 then 1 else 0)
    {
      health := health - loss;
      health := Clamp(health, 0, MaxHealth);
      CheckIfGameOver();
    }

    /** `OnTriggerEnter2D`: the exit schedules `Restart` and disables the player; treasure
        adds one point; food adds 10 health, clamped to [0, 100]; any other tag does
        nothing. */
    method OnTriggerEnter2D(tag: string)
      modifies this`enabled, this`restartPending, this`score, this`health
      ensures tag == "Exit" ==> !enabled && restartPending && score == old(score) && health == old(health)
      ensures tag == "Treasure" ==>
        score == old(score) + 1 && health == old(health) && enabled == old(enabled) && restartPending == old(restartPending)
      ensures tag == "Food" ==>
        health == Clamp(old(health) + FoodPoints, 0, MaxHealth) && score == old(score) &&
        enabled == old(enabled) && restartPending == old(restartPending)
      ensures tag != "Exit" && tag != "Treasure" && tag != "Food" ==>
        health == old(health) && score == old(score) && enabled == old(enabled) && restartPending == old(restartPending)
    {
      if tag == "Exit" {
        restartPending := true;
        enabled := false;
      } else if tag == "Treasure" {
        score := score + 1;
      } else if tag == "Food" {
        health := health + FoodPoints;
        health := Clamp(health, 0, MaxHealth);
      }
    }

    /** `Restart`: the score and health are stored in the game manager, unchanged, before
        the scene reloads. */
    method Restart(gm: GameManager)
      modifies gm`playerScore, gm`playerHealth
      ensures gm.playerScore == score && gm.playerHealth == health
    {
      gm.playerScore := score;
      gm.playerHealth := health;
    }

    /** The movement part of `Update` with the truncated axis readings and whether Escape
        went down this frame; returns the step handed to `AttemptMove`, which then runs the
        game-over check (MovingObject.cs, which moves the player, is not part of this
        model). Escape sets health to 0 without a check of its own. */
    method Update(horizontal: int, vertical: int, escape: bool) returns (move: Option<Step>)
      modifies this`flipX, this`health, this`gameOver, this`deathSequences
      ensures move == Normalise(horizontal, vertical)
      ensures flipX == if move.Some? then Facing(old(flipX), move.value.x) else old(flipX)
      ensures gameOver == (old(gameOver) || (move.Some? && old(health) == 0))
      ensures deathSequences == old(deathSequences) + (if move.Some? && old(health) == 0 then 1 else 0)
      ensures health == if escape then 0 else old(health)
    {
      var h := horizontal;
      var v := vertical;
      if h != 0 {
        v := 0;
      }
      move := None;
      if h != 0 || v != 0 {
        flipX := Facing(flipX, h);
        move := Some(Step(h, v));
        CheckIfGameOver();
      }
      if escape {
        health := 0;
      }
    }

    /** `hitEnemies` on the hits of the whip's circle cast: the first hit tagged "Enemy"
        takes `whipDamage`; no other enemy is touched, and without such a hit nothing
        changes. */
    method HitEnemies(hits: seq<Hit>, gm: GameManager)
      modifies (set i | 0 <= i < |hits| :: hits[i].enemy)`health
      modifies (set i | 0 <= i < |hits| :: hits[i].enemy)`destroyed
      modifies gm`enemies
      ensures FirstEnemy(hits).None? ==>
        gm.enemies == old(gm.enemies) && forall i :: 0 <= i < |hits| ==> unchanged(hits[i].enemy)
      ensures FirstEnemy(hits).Some? ==>
        var target := hits[FirstEnemy(hits).value].enemy;
        target.health == old(target.health) - whipDamage &&
        target.destroyed == (old(target.destroyed) || target.health < 1) &&
        gm.enemies == (if target.health < 1 then Remove(old(gm.enemies), target) else old(gm.enemies)) &&
        forall i :: 0 <= i < |hits| && hits[i].enemy != target ==> unchanged(hits[i].enemy)
    {
      var i := 0;
      while i < |hits|
        invariant 0 <= i <= |hits|
        invariant forall j :: 0 <= j < i ==> hits[j].tag != "Enemy"
      {
        if hits[i].tag == "Enemy" {
          var target := hits[i].enemy;
          target.TakeDamage(whipDamage, gm);
          return;
        }
        i := i + 1;
      }
    }
  }

  class Enemy {
    var health: int
    const playerDamage: int
    /** `transform.position`, read by `MoveEnemy`; the move itself is MovingObject.cs, not
        part of this model. */
    var position: Cell
    /** `spriteRenderer.flipX`. */
    var flipX: bool
    /** Whether `Destroy(gameObject)` has been called. */
    var destroyed: bool

    constructor(at: Cell, health: int, playerDamage: int)
      ensures this.health == health && this.playerDamage == playerDamage && position == at
      ensures !flipX && !destroyed
    {
      this.health := health;
      this.playerDamage := playerDamage;
      position := at;
      flipX := false;
      destroyed := false;
    }

    /** `Start`: the enemy registers itself with the game manager. */
    method Start(gm: GameManager)
      modifies gm`enemies
      ensures gm.enemies == old(gm.enemies) + [this]
    {
      gm.AddEnemyToList(this);
    }

    /** `MoveEnemy` with the player at `target` and the draw `rng`: returns the step
        handed to `AttemptMove` and turns the sprite toward its x component. */
    method MoveEnemy(target: Cell, rng: real) returns (step: Step)
      modifies this`flipX
      ensures step == ChaseStep(position, target, rng)
      ensures flipX == Facing(old(flipX), step.x)
    {
      var xDir := 0;
      var yDir := 0;
      var xDiff := target.x - position.x;
      var yDiff := target.y - position.y;
      if Abs(xDiff) > Abs(yDiff) {
        xDir := if target.x > position.x then 1 else -1;
      } else {
        yDir := if target.y > position.y then 1 else -1;
      }
      if rng > 0.75 {
        if xDir == 0 {
          xDir := if target.x > position.x then 1 else -1;
          yDir := 0;
        } else {
          xDir := 0;
          yDir := if target.y > position.y then 1 else -1;
        }
      }
      if rng < 0.1 {
        xDir := xDir * -1;
        yDir := yDir * -1;
      }
      flipX := Facing(flipX, xDir);
      step := Step(xDir, yDir);
    }

    /** `OnCantMove`: blocked by the player, the enemy takes `playerDamage` off the
        player's health, once. */
    method OnCantMove(hitPlayer: Player)
      modifies hitPlayer`health, hitPlayer`gameOver, hitPlayer`deathSequences
      ensures hitPlayer.health == Clamp(old(hitPlayer.health) - playerDamage, 0, MaxHealth)
      ensures hitPlayer.gameOver == (old(hitPlayer.gameOver) || hitPlayer.health == 0)
      ensures hitPlayer.deathSequences == old(hitPlayer.deathSequences) + (if hitPlayer.health == 0 then 1 else 0)
    {
      hitPlayer.LoseHealth(playerDamage);
    }

    /** `takeDamage`: health drops by exactly `dmg`, with no clamp; below 1 the enemy
        leaves the registry and is destroyed. When the registry held it at most once, it
        is in the registry afterwards exactly when it was before and survived. */
    method TakeDamage(dmg: int, gm: GameManager)
      modifies this`health, this`destroyed, gm`enemies
      ensures health == old(health) - dmg
      ensures destroyed == (old(destroyed) || health < 1)
      ensures gm.enemies == if health < 1 then Remove(old(gm.enemies), this) else old(gm.enemies)
      ensures multiset(old(gm.enemies))[this] <= 1 ==>
        (this in gm.enemies <==> this in old(gm.enemies) && health >= 1)
    {
      health := health - dmg;
      if health < 1 {
        ghost var before: seq<Enemy> := gm.enemies;
        gm.RemoveEnemyFromList(this);
        destroyed := true;
        if multiset(before)[this] <= 1 {
          assert this !in multiset(gm.enemies);
        }
      }
    }
  }

  /** A level transition: the player reaching the exit stores its score and health
      (`Restart`), the scene reloads and the new level's player starts from exactly those
      values. */
  method NextLevel(p: Player, gm: GameManager) returns (q: Player)
    modifies gm`playerScore, gm`playerHealth
    ensures q.score == p.score && q.health == p.health
    ensures fresh(q)
  {
    p.Restart(gm);
    q := new Player();
    q.Start(gm);
  }
}
