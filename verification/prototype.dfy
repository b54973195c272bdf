/**
 * The falling-fruit prototype: a container drawn in the middle of a
 * 1920x1080 screen (y grows downwards), fruits dropped by mouse clicks at a
 * fixed height, and a frame loop that lets every fruit fall 5 px per frame
 * while it is inside the container's side and bottom walls.
 */
module Prototype {

  // Screen and container geometry. The source computes these with Python's
  // true division; every halving is exact (see GeometryIsExact), so the
  // integer values below are the source's values.
  const SCREEN_WIDTH := 1920
  const SCREEN_HEIGHT := 1080
  const WIDTH := 400
  const HEIGHT := 500
  const CTR_X := SCREEN_WIDTH / 2
  const CTR_Y := SCREEN_HEIGHT / 2
  const LEFT := CTR_X - WIDTH / 2
  const RIGHT := LEFT + WIDTH
  const TOP := CTR_Y - HEIGHT / 2
  const BOTTOM := TOP + HEIGHT

  /** Every fruit of the prototype has this radius. */
  const FRUIT_RADIUS := 25
  /** Height at which a clicked fruit is created. */
  const DROP_Y := 75
  /** Distance a fruit falls in one frame. */
  const FALL_STEP := 5

  lemma GeometryIsExact()
    ensures SCREEN_WIDTH % 2 == 0 && SCREEN_HEIGHT % 2 == 0
    ensures WIDTH % 2 == 0 && HEIGHT % 2 == 0
    ensures LEFT == 760 && RIGHT == 1160 && TOP == 290 && BOTTOM == 790
  {
  }

  /** The observable state of one fruit: its centre and its radius. */
  datatype FruitState = FruitState(x: int, y: int, radius: int)
  {
    /**
     * Inside the left, right and bottom walls. There is deliberately no
     * test against TOP: a fruit above the container still counts.
     */
    predicate InBounds()
    {
      BetweenWalls() && y + radius < BOTTOM
    }

    /** One call of update: fall by FALL_STEP while in bounds. */
    function Fall(): FruitState
    {
      if InBounds() then this.(y := y + FALL_STEP) else this
    }

    /** The state after n consecutive updates. */
    function Fallen(n: nat): FruitState
      decreases n
    {
      if n == 0 then this else Fall().Fallen(n - 1)
    }

    /** One more update after n updates is n + 1 updates. */
    lemma {:induction false} FallenThenFall(n: nat)
      ensures Fallen(n).Fall() == Fallen(n + 1)
      decreases n
    {
      if n > 0 {
        Fall().FallenThenFall(n - 1);
      }
    }

    /** Both side-wall tests pass (they never change while the fruit falls). */
    predicate BetweenWalls()
    {
      x - radius > LEFT && x + radius < RIGHT
    }

    /** Number of updates that move the fruit before it comes to rest. */
    function StepsToRest(): nat
    {
      if !BetweenWalls() || y + radius >= BOTTOM then 0
      else (BOTTOM - radius - y + FALL_STEP - 1) / FALL_STEP
    }
  }

  /** The fruit a click at horizontal position mouseX creates. */
  function Dropped(mouseX: int): FruitState
  {
    FruitState(mouseX, DROP_Y, FRUIT_RADIUS)
  }

  /** The click handler keeps the new fruit exactly for these positions. */
  function DropAccepted(mouseX: int): (r: bool)
    ensures r <==> LEFT + FRUIT_RADIUS < mouseX < RIGHT - FRUIT_RADIUS
    ensures r <==> 785 < mouseX < 1135
  {
    Dropped(mouseX).InBounds()
  }

  /**
   * For a fruit of the prototype's radius, in_bounds is a numeric region:
   * the centre lies strictly between 785 and 1135 horizontally and above 765.
   */
  lemma InBoundsRegion(f: FruitState)
    requires f.radius == FRUIT_RADIUS
    ensures f.InBounds() <==> 785 < f.x < 1135 && f.y < 765
  {
  }

  /**
   * No top check: raising an in-bounds fruit keeps it in bounds, and a fruit
   * lying wholly above the container's top edge counts as in bounds.
   */
  lemma InBoundsIgnoresTop(f: FruitState, higherY: int)
    requires f.InBounds() && higherY <= f.y
    ensures f.(y := higherY).InBounds()
    ensures FruitState(CTR_X, TOP - FRUIT_RADIUS - 1, FRUIT_RADIUS).InBounds()
  {
  }

  /** update changes y only, by FALL_STEP when in bounds and not at all otherwise. */
  lemma FallMovesOnlyY(f: FruitState)
    ensures f.Fall().x == f.x && f.Fall().radius == f.radius
    ensures f.InBounds() ==> f.Fall().y == f.y + FALL_STEP
    ensures f.Fall() == f <==> !f.InBounds()
  {
  }

  /** Once out of bounds, every later update is a no-op. */
  lemma {:induction false} OutOfBoundsStaysPut(f: FruitState, n: nat)
    requires !f.InBounds()
    ensures f.Fallen(n) == f
    decreases n
  {
    if n > 0 {
      OutOfBoundsStaysPut(f, n - 1);
    }
  }

  /**
   * Starting no lower than one step below the floor line, a fruit never sinks
   * further: x and radius are kept, y only grows, and y + radius stays below
   * BOTTOM + FALL_STEP.
   */
  lemma {:induction false} FallKeepsFloorMargin(f: FruitState, n: nat)
    requires f.y + f.radius < BOTTOM + FALL_STEP
    ensures f.Fallen(n).x == f.x && f.Fallen(n).radius == f.radius
    ensures f.y <= f.Fallen(n).y
    ensures f.Fallen(n).y + f.Fallen(n).radius < BOTTOM + FALL_STEP
    decreases n
  {
    if n > 0 {
      FallKeepsFloorMargin(f.Fall(), n - 1);
    }
  }

  /** The distance still to fall shrinks by one step per moving update. */
  lemma StepsToRestAfterFall(f: FruitState)
    requires f.InBounds()
    ensures f.StepsToRest() >= 1
    ensures f.Fall().StepsToRest() == f.StepsToRest() - 1
  {
    var d := BOTTOM - f.radius - f.y;
    assert d > 0;
    if d <= FALL_STEP {
      assert f.StepsToRest() == 1;
      assert f.Fall().StepsToRest() == 0;
    } else {
      assert (d - FALL_STEP + FALL_STEP - 1) / FALL_STEP == (d + FALL_STEP - 1) / FALL_STEP - 1;
    }
  }

  /**
   * Closed form of n updates: the fruit moves FALL_STEP per update for
   * exactly StepsToRest() updates and then stays put.
   */
  lemma {:induction false} FallenClosedForm(f: FruitState, n: nat)
    ensures f.Fallen(n) ==
      f.(y := f.y + FALL_STEP * (if n < f.StepsToRest() then n else f.StepsToRest()))
    decreases n
  {
    if n == 0 {
    } else if f.InBounds() {
      StepsToRestAfterFall(f);
      FallenClosedForm(f.Fall(), n - 1);
    } else {
      OutOfBoundsStaysPut(f, n);
    }
  }

  /**
   * StepsToRest() is exactly the number of updates after which the fruit
   * leaves the in-bounds region: in bounds before, out of bounds from then on.
   */
  lemma {:induction false} RestsAfterStepsToRest(f: FruitState, m: nat)
    ensures m < f.StepsToRest() ==> f.Fallen(m).InBounds()
    ensures m >= f.StepsToRest() ==> !f.Fallen(m).InBounds()
    ensures m >= f.StepsToRest() ==> f.Fallen(m) == f.Fallen(f.StepsToRest())
  {
    FallenClosedForm(f, m);
    FallenClosedForm(f, f.StepsToRest());
    var k := f.StepsToRest();
    if f.BetweenWalls() && f.y + f.radius < BOTTOM {
      var d := BOTTOM - f.radius - f.y;
      assert k == (d + FALL_STEP - 1) / FALL_STEP;
      assert FALL_STEP * k >= d;
      if m < k {
        assert FALL_STEP * m <= FALL_STEP * (k - 1);
        assert FALL_STEP * (k - 1) < d;
      }
    }
  }

  /**
   * A fruit accepted by the click handler falls for exactly 138 frames and
   * then rests at y = 765 = BOTTOM - radius, where it stays.
   */
  lemma DroppedFruitRests(mouseX: int)
    requires DropAccepted(mouseX)
    ensures Dropped(mouseX).StepsToRest() == 138
    ensures Dropped(mouseX).Fallen(137).InBounds()
    ensures Dropped(mouseX).Fallen(138).y == 765 == BOTTOM - FRUIT_RADIUS
    ensures !Dropped(mouseX).Fallen(138).InBounds()
    ensures forall n: nat :: n >= 138 ==> Dropped(mouseX).Fallen(n) == Dropped(mouseX).Fallen(138)
  {
    var f := Dropped(mouseX);
    assert f.StepsToRest() == 138;
    RestsAfterStepsToRest(f, 137);
    RestsAfterStepsToRest(f, 138);
    FallenClosedForm(f, 138);
    forall n: nat | n >= 138
      ensures f.Fallen(n) == f.Fallen(138)
    {
      RestsAfterStepsToRest(f, n);
    }
  }

  /** A fruit object of the prototype; only its y coordinate ever changes. */
  class Fruit {
    var x: int
    var y: int
    var radius: int

    constructor (initX: int, initY: int)
      ensures State() == FruitState(initX, initY, FRUIT_RADIUS)
    {
      x := initX;
      y := initY;
      radius := FRUIT_RADIUS;
    }

    function State(): FruitState
      reads this
    {
      FruitState(x, y, radius)
    }

    predicate InBounds()
      reads this
    {
      State().InBounds()
    }

    method Update()
      modifies this
      ensures State() == old(State()).Fall()
      ensures x == old(x) && radius == old(radius)
    {
      if InBounds() {
        y := y + FALL_STEP;
      }
    }
  }

  /** The list of dropped fruits together with the click and frame handlers. */
  class Game {
    var fruits: seq<Fruit>

    /** No fruit object appears twice, so each is updated once per frame. */
    ghost predicate Valid()
      reads this
    {
      forall i, j :: 0 <= i < j < |fruits| ==> fruits[i] != fruits[j]
    }

    constructor ()
      ensures Valid() && fruits == []
    {
      fruits := [];
    }

    /**
     * A mouse click at horizontal position mouseX: a fresh fruit at
     * (mouseX, DROP_Y) is appended exactly when it starts in bounds.
     */
    method HandleClick(mouseX: int)
      requires Valid()
      modifies this
      ensures Valid()
      ensures DropAccepted(mouseX) ==>
        && |fruits| == |old(fruits)| + 1
        && fruits[..|old(fruits)|] == old(fruits)
        && fresh(fruits[|old(fruits)|])
        && fruits[|old(fruits)|].State() == Dropped(mouseX)
      ensures !DropAccepted(mouseX) ==> fruits == old(fruits)
      ensures forall k :: 0 <= k < |old(fruits)| ==> fruits[k].State() == old(fruits[k].State())
    {
      var droppedFruit := new Fruit(mouseX, DROP_Y);
      if droppedFruit.InBounds() {
        fruits := fruits + [droppedFruit];
      }
    }

    /** One frame: every fruit of the list is updated once, in list order. */
    method Frame()
      requires Valid()
      modifies fruits
      ensures Valid() && fruits == old(fruits)
      ensures forall k :: 0 <= k < |fruits| ==> fruits[k].State() == old(fruits[k].State()).Fall()
    {
      var i := 0;
      while i < |fruits|
        invariant 0 <= i <= |fruits|
        invariant forall k :: 0 <= k < i ==> fruits[k].State() == old(fruits[k].State()).Fall()
        invariant forall k :: i <= k < |fruits| ==> fruits[k].State() == old(fruits[k].State())
      {
        fruits[i].Update();
        i := i + 1;
      }
    }
  }
}
