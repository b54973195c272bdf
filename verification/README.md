# Suika clone prototype, modelled in Dafny

This project models the early prototype of a falling-fruit merge game ("Suika").
It has three parts.

- `prototype.dfy` (module `Prototype`) models the pygame prototype.
  - A container sits in the middle of a 1920x1080 screen, with y growing downwards.
  - A mouse click creates a fruit of radius 25 at `(mouse_x, 75)`. The fruit is kept only if it starts inside the side walls and above the floor.
  - Every frame updates each kept fruit once. An update moves the fruit down 5 px while it is in bounds.
  - The fruit is a class with mutable fields. The list of fruits is a class `Game`, with the click handler and the frame loop as methods.
  - The methods are proved against the pure state `FruitState` and its `InBounds` and `Fall`.
  - The lemmas reason about `Fallen(n)`, n updates in a row; `FallenThenFall` connects it to one more `Fall` per frame. They state what the source promises: the walls that are tested, the 5 px step, stopping, and the exact resting place of a dropped fruit.
- `catalog.dfy` (module `Catalog`) models the fruit tier enumeration.
  - It has eleven members, CHERRY to WATERMELON. Each has an id, a radius, a mass and an RGB colour.
  - Masses are kept in tenths.
  - The lemmas prove the table's invariants: contiguous unique ids, strictly growing radii and masses, and valid colours.
- `config.dfy` (module `Config`) models the container geometry of the physics version.
  - It uses a 1280x720 screen and a 5:6 box. TOP = CTR_Y + Y_PADDING and BOTTOM = CTR_Y − Y_PADDING, so TOP > BOTTOM as numbers. src/config.py does not fix the direction of the y axis.
  - It is computed over exact reals, both for the configured screen and for any positive screen size.

The prototype does not import the configuration, so the two geometries are modelled separately: they differ in screen size, ratio, and in whether TOP is the smaller or the larger y value.
The game the repository aims for has merging, scoring, a spawn cooldown, a highscore and game-over detection. None of that exists in src/main.py, src/fruits.py or src/config.py, so it is not modelled. The model follows the code.

## Model

| member | source | states |
|---|---|---|
| `Prototype.GeometryIsExact` | src/main.py:5-22 | The halvings of the screen and container sizes are exact, giving LEFT=760, RIGHT=1160, TOP=290, BOTTOM=790 |
| `Prototype.InBoundsRegion` | src/main.py:15-43 | For a fruit of radius 25, in_bounds holds exactly when 785 < x < 1135 and y < 765; y has no lower bound, because there is no top check |
| `Prototype.InBoundsIgnoresTop` | src/main.py:37-43 | No top test: raising an in-bounds fruit keeps it in bounds, and a fruit wholly above TOP is in bounds |
| `Prototype.FallMovesOnlyY` | src/main.py:45-47 | An update keeps x and radius, adds exactly 5 to y when in bounds, and is the identity exactly when out of bounds |
| `Prototype.OutOfBoundsStaysPut` | src/main.py:37-47 | From an out-of-bounds state, any number of updates leaves the fruit unchanged |
| `Prototype.FallKeepsFloorMargin` | src/main.py:42-47 | From y + r < BOTTOM + 5, after any number of updates x and r are kept, y has not decreased, and y + r < BOTTOM + 5 still holds |
| `Prototype.StepsToRestAfterFall` | src/main.py:42-47 | An in-bounds fruit has at least one moving update left, and one update reduces that count by exactly one |
| `Prototype.FallenClosedForm` | src/main.py:45-47 | n updates move the fruit by 5·min(n, StepsToRest) in y and change nothing else |
| `Prototype.RestsAfterStepsToRest` | src/main.py:37-47 | The fruit is in bounds for fewer than StepsToRest updates and out of bounds (and fixed) from then on |
| `Prototype.DropAccepted` | src/main.py:51-55 | A click keeps its fruit exactly when LEFT + 25 < mouse_x < RIGHT − 25, that is 785 < mouse_x < 1135 |
| `Prototype.DroppedFruitRests` | src/main.py:37-55 | An accepted fruit is in bounds after 137 updates, rests at y = 765 = BOTTOM − radius after exactly 138, and stays there for every later update |
| `Prototype.FruitState.InBounds` | src/main.py:37-43 | The in_bounds test on a fruit's state (the object-level `Prototype.Fruit.InBounds` applies it to the fruit's fields): side walls and floor only; its meaning is stated by `InBoundsRegion` and `InBoundsIgnoresTop` |
| `Prototype.FruitState.Fall` | src/main.py:45-47 | One update on a fruit's state; its meaning is stated by `FallMovesOnlyY` |
| `Prototype.FruitState.FallenThenFall` | src/main.py:45-47 | One more update after n updates is the state after n + 1 updates, which links the per-frame `Update` to the lemmas about `Fallen(n)` |
| `Prototype.Dropped` | src/main.py:53 | The fruit a click creates, at (mouse_x, 75) with radius 25; acceptance is stated by `DropAccepted` |
| `Prototype.Fruit.constructor` | src/main.py:29-32 | A new fruit has the given x and y and radius 25 |
| `Prototype.Fruit.Update` | src/main.py:45-47 | The new state is `Fall` of the old one; x and radius are unchanged |
| `Prototype.Game.constructor` | src/main.py:27 | The fruit list starts empty |
| `Prototype.Game.HandleClick` | src/main.py:51-55 | An accepted click appends one fresh fruit at (mouse_x, 75) behind the unchanged old list. A rejected click leaves the list unchanged. Existing fruits are not touched, and the list stays free of duplicates |
| `Prototype.Game.Frame` | src/main.py:75-77 | The list is unchanged, and every fruit in it is now `Fall` of its state before the frame, so each is updated exactly once |
| `Catalog.Value` | src/fruits.py:13-23 | Each member's declared (id, radius, mass in tenths, colour) |
| `Catalog.Init` | src/fruits.py:25-29 | The initialiser stores the four tuple components into id, radius, mass and colour unchanged |
| `Catalog.Find` | src/fruits.py:13-23 | A search by id returns a member of the searched list carrying that id, or none when no member carries it |
| `Catalog.FromId` | src/fruits.py:13-29 | Lookup by id succeeds exactly on 0..10, and returns the member declared at that position, whose id field is the key |
| `Catalog.MembersNumberedInOrder` | src/fruits.py:13-23 | There are exactly 11 members, each listed once, with ids 0..10 in declaration order |
| `Catalog.IdsUnique` | src/fruits.py:7-23 | Two members have the same id exactly when they are the same member |
| `Catalog.RadiusIncreasing` | src/fruits.py:13-23 | Radius strictly increases with id and lies between 12 (CHERRY) and 80 (WATERMELON) |
| `Catalog.MassIncreasing` | src/fruits.py:13-23 | Mass strictly increases with id and lies between 1.0 and 6.0 (10 to 60 tenths) |
| `Catalog.ColorsValid` | src/fruits.py:10-23 | Every colour component lies in 0..255 |
| `Config.LayoutFor` | src/config.py:6-20 | For any screen, CTR_X and CTR_Y are half the width and height, and RATIO_SCALE is the smaller of height/18 and width/32. The box is centred on the screen (LEFT + RIGHT = width, TOP + BOTTOM = height). It is 10·RATIO_SCALE wide and 12·RATIO_SCALE tall, twice the paddings, so width : height = 5 : 6 |
| `Config.BoxInsideScreen` | src/config.py:2-20 | For every positive screen size, 0 < LEFT < RIGHT < width and 0 < BOTTOM < TOP < height |
| `Config.ConfiguredValues` | src/config.py:2-20 | On 1280x720: RATIO_SCALE = 40, X_PADDING = 200, Y_PADDING = 240, LEFT = 440, RIGHT = 840, BOTTOM = 120, TOP = 600; the box is 400 by 480 |
| `Config.ConfiguredBoxInsideScreen` | src/config.py:2-20 | The configured box lies inside the 1280x720 screen, with BOTTOM < TOP as numbers |

## Left out

- Drawing, the window, the event pump, QUIT handling, the `running` flag and the 60 fps clock in src/main.py are I/O and presentation, with no logic to verify. BORDER_WIDTH is used only for drawing, and the cursor preview circle is drawn but stored nowhere.
- The mouse position comes from pygame. It is a parameter of `HandleClick`, and any integer is allowed.
- Python's true division yields floats in src/main.py and src/config.py. Every value involved is exactly representable, so the model uses `int` for src/main.py and exact `real` for src/config.py. Floating-point rounding is not modelled.
- Mass literals such as 1.2 are integers in tenths.
- src/fruits.py has no lookup by id. `Catalog.FromId` is the indexing by id that the unique ids allow, built from a search over the members in declaration order.
- Prototype.Game.Frame: states the result of each fruit's update, not the order in which the loop visits them. The fruits are distinct objects (`Game.Valid`), and an update touches only its own fruit, so the order cannot change the resulting states.
- src/utils.py `create_circle` and src/physics.py `create_static_boundaries` only build objects of the pymunk physics library. Their behaviour lives in that library, so they are not part of this model.
- Merging, scoring, the highscore, the spawn cooldown, random tier selection and game-over detection do not appear in src/main.py, src/fruits.py or src/config.py. No score attribute and no successor tier exist in the catalog, so none is invented.
