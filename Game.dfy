/** The game component's state machine: six state cells updated in place by
    the jump action, the timer tick and the restart action. */
module GameView {
  import opened Pipes
  import opened Physics
  import opened Checks

  /** The coarse phase of a run, read off the two flags. */
  datatype RunState = NotStarted | Running | Over

  class Game {
    var birdPosition: real
    var birdVelocity: real
    var pipes: seq<Pipe>
    var gameStarted: bool
    var score: nat
    var gameOver: bool

    /** What holds of every state the three actions reach from the initial one. */
    ghost predicate Valid()
      reads this
    {
      InField(birdPosition) && ValidPipes(pipes) && (gameOver ==> gameStarted)
    }

    function Phase(): RunState
      reads this
    {
      if gameOver then Over else if gameStarted then Running else NotStarted
    }

    /** The initial values of the six state cells. */
    constructor ()
      ensures Valid()
      ensures birdPosition == StartPosition && birdVelocity == 0.0 && pipes == []
      ensures !gameStarted && score == 0 && !gameOver
      ensures Phase() == NotStarted
    {
      birdPosition := StartPosition;
      birdVelocity := 0.0;
      pipes := [];
      gameStarted := false;
      score := 0;
      gameOver := false;
    }

    /** The jump action: ignored once the run is over; otherwise the
        velocity becomes JumpForce and the run is started. */
    method Jump()
      requires Valid()
      modifies this
      ensures Valid()
      ensures old(gameOver) ==> unchanged(this)
      ensures !old(gameOver) ==> birdVelocity == JumpForce && gameStarted && !gameOver
      ensures birdPosition == old(birdPosition) && pipes == old(pipes) && score == old(score)
      ensures gameOver == old(gameOver)
      ensures old(Phase()) == Over ==> Phase() == Over
      ensures old(Phase()) != Over ==> Phase() == Running
    {
      if !gameOver {
        birdVelocity := JumpForce;
        if !gameStarted {
          gameStarted := true;
        }
      }
    }

    /** One tick of the timer, which runs only while the run is in progress.
        Position, velocity and pipes go through their updaters; the collision
        and score loops read the position and the pipes as they were before
        the tick. */
    method Tick(r: real)
      requires Valid() && Phase() == Running
      requires 0.0 <= r < 1.0
      modifies this
      ensures Valid()
      ensures birdPosition == MoveBird(old(birdPosition), old(birdVelocity)).position
      ensures birdVelocity == old(birdVelocity) + Gravity
      ensures pipes == NextPipes(old(pipes), r)
      ensures gameStarted
      ensures gameOver <==> MoveBird(old(birdPosition), old(birdVelocity)).outOfBounds
                            || AnyCollision(old(pipes), old(birdPosition))
      ensures score == old(score) + ScoreGain(old(pipes))
      ensures old(score) <= score <= old(score) + 1
      ensures Phase() == Running || Phase() == Over
    {
      var seenPosition, seenPipes := birdPosition, pipes;

      var moved := MoveBird(birdPosition, birdVelocity);
      if moved.outOfBounds {
        gameOver := true;
      }
      birdPosition := moved.position;

      birdVelocity := birdVelocity + Gravity;

      NextPipesValid(pipes, r);
      pipes := NextPipes(pipes, r);

      CheckCollisions(seenPipes, seenPosition);
      AddScore(seenPipes);
      ScoreGainAtMostOne(seenPipes);
    }

    /** The collision loop, a step of Tick and of nothing else: ends the run
        if any pipe of the list collides with the bird at the given position.
        It runs only in a started game, which keeps gameOver ==> gameStarted. */
    method CheckCollisions(ps: seq<Pipe>, bird: real)
      requires gameStarted
      modifies this`gameOver
      ensures gameOver <==> old(gameOver) || AnyCollision(ps, bird)
    {
      var i := 0;
      while i < |ps|
        invariant 0 <= i <= |ps|
        invariant gameOver <==> old(gameOver) || exists j :: 0 <= j < i && Collides(ps[j], bird)
      {
        if Collides(ps[i], bird) {
          gameOver := true;
        }
        i := i + 1;
      }
    }

    /** The score loop, a step of Tick: one point per pipe of the list on the
        score column. */
    method AddScore(ps: seq<Pipe>)
      modifies this`score
      ensures score == old(score) + ScoreGain(ps)
    {
      var i := 0;
      while i < |ps|
        invariant 0 <= i <= |ps|
        invariant score == old(score) + ScoreGain(ps[..i])
      {
        assert ps[..i + 1][..i] == ps[..i];
        if Scores(ps[i]) {
          score := score + 1;
        }
        i := i + 1;
      }
      assert ps[..i] == ps;
    }

    /** The restart action: every state cell back to its initial value. This
        is the only action that clears gameOver. */
    method Reset()
      modifies this
      ensures Valid()
      ensures birdPosition == StartPosition && birdVelocity == 0.0 && pipes == []
      ensures !gameStarted && score == 0 && !gameOver
      ensures Phase() == NotStarted
    {
      birdPosition := StartPosition;
      birdVelocity := 0.0;
      pipes := [];
      gameStarted := false;
      score := 0;
      gameOver := false;
    }
  }
}
