# Ray tracer tuple algebra, modelled in Dafny

This project models the geometry layer of a small ray tracer:

- `Helpers` (`helpers.dfy`): the tolerance comparator `f64_equal`. Two scalars are equal
  when they differ by strictly less than `f64::EPSILON`.
- `Tuples` (`tuples.dfy`): the homogeneous tuple `PV` = (x, y, z, w). The tag `w = 1`
  marks a point and `w = 0` a vector. The module covers its constructors, `is_point`
  (within `f32::EPSILON` of 1) and `is_valid` (a tag strictly between 0 and 1).
  `PV` is a copyable value, so it is a datatype. `add` and `sub` change the tuple they are
  called on, so they are methods of the class `PVRef`, whose four fields are the tuple's
  scalars. Each method updates the four fields in source order, then runs the `is_valid`
  check on the updated tuple. It returns `Err(InvalidAddition)` / `Err(InvalidSubtraction)`
  or `Ok` of the same place. The fields stay updated on the error path.
- `Vectors` (`vector.dfy`): the typed `Vector`, reduced to what its callers use: a triple
  with accessors, `Vector::new`, and `Vector + Vector`. src/vector.rs is not part of this
  model, so `new` is assumed to store its arguments in order and `+` is assumed to be
  componentwise.
- `Points` (`point.rs` operators in `point.dfy`): the typed `Point` with `+ Vector`,
  `- Vector`, `* k`, `/ k`, negation and `Default`. Each is a pure function.
- `Colors` (`color.dfy`): the generic triple `RGB<T>`, its constructor and its
  channel-by-channel equality.
- `Simulation` (`simulation.dfy`): the projectile demo. `Projectile` is a class because
  `tick` assigns its position and then its velocity in place. `Environment` is a value.
  `Simulate` is `main`'s loop: it ticks while the height is positive and returns the
  positions the loop visits.

Scalars are `real`. `f64::EPSILON` (2^-52) and `f32::EPSILON` (2^-23) keep their exact
values. The proofs use only the fact that both are positive and below 1.

The tests in tests/tuples.rs use a different `PV` API: operator `+`/`-` returning a
`Result` (tests/tuples.rs:112, 162), `*` and `/` (tests/tuples.rs:220, 244), `mag`, `norm`
and `dot`. src/tuples.rs has only the mutating `add`/`sub`, and `is_valid` runs on `self`
after the update, i.e. on the result. The model follows src/tuples.rs and uses the tests
only where they match it.

## Model

| member | source | states |
|---|---|---|
| `Helpers.EpsilonsAreSmallPositive` | src/helpers.rs:2 | the machine epsilons are positive, f64's (this line) is below f32's (the margin of `is_point`, src/tuples.rs:23), and both are below 1 |
| `Helpers.Abs` | src/helpers.rs:3 | the absolute value is non-negative and is either the argument or its negation |
| `Helpers.F64Equal` | src/helpers.rs:1-4 | `f64_equal(a, b)` holds exactly when `a` lies strictly inside the interval of radius f64::EPSILON around `b` |
| `Helpers.F64EqualReflexive` | src/helpers.rs:2-3 | every scalar is tolerance-equal to itself, because the margin is positive |
| `Helpers.F64EqualSymmetric` | src/helpers.rs:3 | swapping the arguments does not change the answer |
| `Helpers.F64EqualStrictBound` | src/helpers.rs:3 | scalars exactly one epsilon apart are not equal (the bound is strict) |
| `Helpers.F64EqualNotTransitive` | src/helpers.rs:3 | there are a, b, c with a≈b and b≈c but not a≈c |
| `Tuples.New` | src/tuples.rs:10-12 | `new(x, y, z, w)` stores its four arguments in order, with no check on the tag |
| `Tuples.Point` | src/tuples.rs:14-16 | `point(x, y, z)` is `new(x, y, z, 1.0)` |
| `Tuples.Vector` | src/tuples.rs:18-20 | `vector(x, y, z)` is `new(x, y, z, 0.0)` |
| `Tuples.IsPoint` | src/tuples.rs:22-25 | `is_point` holds exactly when the tag lies strictly within f32::EPSILON of 1 |
| `Tuples.SumUndoneByDifference` | src/tuples.rs:42-45 | the fields after the four `+=` updates: subtracting the operand again restores the original tuple, and the sum does not depend on operand order |
| `Tuples.Difference` | src/tuples.rs:54-58 | the fields after the four `-=` updates; adding the operand back restores the original tuple |
| `Tuples.PVRef.Add` | src/tuples.rs:41-52 | the place holds the componentwise sum, tag included; the result is `Err(InvalidAddition)` exactly when the summed tag is strictly between 0 and 1, otherwise `Ok` of the place itself; the sum is not undone on error |
| `Tuples.PVRef.Sub` | src/tuples.rs:54-65 | the place holds the componentwise difference; `Err(InvalidSubtraction)` exactly when the tag of the difference is strictly between 0 and 1, else `Ok` of the place; not undone on error |
| `Tuples.PointsAndVectorsClassified` | src/tuples.rs:4-39 | `point`/`vector` keep x, y, z; `is_point` is true for every point and false for every vector; `point(x,y,z) != vector(x,y,z)`; `is_valid` flags neither |
| `Tuples.IsValid` | src/tuples.rs:37-39 | `is_valid` excludes both ends 0 and 1, so it never flags a tuple tagged exactly 0 or 1 |
| `Tuples.PointAndFlaggedOverlap` | src/tuples.rs:22-39 | some tuple (tag 1 - ε/2) is both classified as a point and flagged by `is_valid` |
| `Tuples.PureOperandsNeverRejected` | src/tuples.rs:37-65 | for operands tagged 0 or 1, sums are tagged 0, 1 or 2 and differences -1, 0 or 1, so neither `add` nor `sub` reports an error |
| `Tuples.TagsFollowGeometry` | src/tuples.rs:41-65 | point + vector and vector + point are points, vector + vector is a vector, point - vector is a point, point - point is tagged 0 and is not a point |
| `Tuples.PointPlusVectorScenario` | tests/tuples.rs:102-115 | point(3,-2,5) `add` vector(-2,3,1) succeeds and leaves point(1,1,6) |
| `Tuples.PointMinusVectorScenario` | tests/tuples.rs:152-165 | point(3,-2,5) `sub` vector(-2,3,1) succeeds and leaves point(5,-5,4) |
| `Tuples.PointMinusPointScenario` | tests/tuples.rs:167-180 | point(3,-2,5) `sub` point(-2,3,1) succeeds and leaves vector(5,-5,4), which is not a point |
| `Tuples.RejectedAdditionKeepsSum` | src/tuples.rs:41-49 | a tuple tagged 0.25 plus a vector reports `InvalidAddition`, and the place still holds the sum |
| `Tuples.PointPlusPointAccepted` | src/tuples.rs:41-52 | as written, point + point succeeds, leaving a tuple tagged 2 |
| `Tuples.VectorMinusPointAccepted` | src/tuples.rs:54-65 | as written, vector - point succeeds, leaving a tuple tagged -1 |
| `Tuples.CheckedAdd` | src/tuples.rs:41-52 | corrected addition: `Ok` carries the sum and that sum is exactly a point or a vector; `Err(InvalidAddition)` only when the sum is neither |
| `Tuples.CheckedSub` | src/tuples.rs:54-65 | corrected subtraction: `Ok` carries the difference and it is exactly a point or a vector; `Err(InvalidSubtraction)` only when it is neither |
| `Tuples.CheckedOpsRejectExactlyMeaningless` | src/tuples.rs:74-96 | on points and vectors, corrected `add` fails exactly for point + point and corrected `sub` exactly for vector - point, the cases the error messages name |
| `Vectors.New` | src/main.rs:49-50 | `Vector::new(x, y, z)`, assumed to store its arguments in order, gives back x, y, z through the accessors |
| `Vectors.Plus` | src/main.rs:17 | the assumed componentwise `Vector + Vector` has the zero vector as neutral element on either side |
| `Points.New` | src/point.rs:12-24 | `Point::new(x, y, z)` stores the coordinates and `x()`, `y()`, `z()` return them |
| `Points.Default` | src/point.rs:4 | the derived default is the point built from (0, 0, 0) |
| `Points.Add` | src/point.rs:27-37 | `p + v` is a point that `- v` brings back to `p` |
| `Points.Div` | src/point.rs:63-73 | for a non-zero `k`, `p / k` is the point that `* k` brings back to `p` |
| `Points.Neg` | src/point.rs:75-84 | `-p` is `p * -1` |
| `Points.Mul` | src/point.rs:51-61 | `p * 1` is `p`, and `p * 0` is the origin |
| `Points.AddSubCoordinates` | src/point.rs:27-49 | `+ Vector` adds and `- Vector` subtracts coordinate by coordinate, and `+ v` undoes `- v` |
| `Points.AddAssociates` | src/point.rs:27-37 | `(p + v1) + v2 == p + (v1 + v2)`, and `p + 0 == p` |
| `Points.MulScales` | src/point.rs:51-61 | `* k` multiplies each coordinate, and `(p * a) * b == p * (a * b)` |
| `Points.DivUndoesMul` | src/point.rs:63-73 | `/ k` divides each coordinate; `(p * k) / k == p`; `/ 1` is the identity |
| `Points.NegInvolution` | src/point.rs:75-84 | negation flips all three coordinates, and negating twice gives back `p` |
| `Points.DefaultIsOrigin` | src/point.rs:4 | the default point is the origin; translating it by `v` gives `v`'s coordinates |
| `Colors.New` | src/color.rs:18-24 | `RGB::new(r, g, b)` stores the arguments in R, G, B order |
| `Colors.Eq` | src/color.rs:27-30 | channel-wise equality holds exactly when the two colours are identical |
| `Colors.EqReflexiveSymmetric` | src/color.rs:27-30 | equality is reflexive and symmetric |
| `Colors.SameChannelsEqual` | tests/rbg.rs:30-35 | `new(-0.5, 0.4, 1.7)` equals itself and has those channels |
| `Colors.OneChannelDiffers` | src/color.rs:29 | colours that differ in any single channel are unequal |
| `Simulation.Projectile.constructor` | src/main.rs:20-32 | `Projectile::new` stores position and velocity, and `pos()`, `vel()` return them |
| `Simulation.NewEnvironment` | src/main.rs:34-46 | `Environment::new` stores gravity and wind, and `gravity()`, `wind()` return them |
| `Simulation.Tick` | src/main.rs:15-18 | the new position is the old position plus the old velocity; the new velocity is (old velocity + gravity) + wind; the environment is read only |
| `Simulation.MainEnvironmentStep` | src/main.rs:17 | under `main`'s gravity and wind, a tick lowers vel.y by exactly 0.1 and vel.x by 0.01, and keeps vel.z |
| `Simulation.TickFollowsClosedForm` | src/main.rs:15-18 | one tick of `main`'s projectile takes the closed-form state after n ticks to the one after n + 1 |
| `Simulation.AboveGroundUntil22` | src/main.rs:52-57 | the closed-form height is positive exactly for the first 22 states (n ≤ 21) |
| `Simulation.Simulate` | src/main.rs:48-59 | `main`'s loop visits 23 positions, each the closed form after that many ticks; every position but the last has y > 0, the loop exits only with y ≤ 0, and it stops at (19.69, -0.1, 0) |

## Findings

| source | as written | input that shows it | evidently intended | confidence | as-written member | corrected member |
|---|---|---|---|---|---|---|
| src/tuples.rs:41-65 | `add`/`sub` report an error only when the result's tag is strictly between 0 and 1. Operands tagged 0 or 1 never produce such a tag. | `point(3,-2,5).add(point(-2,3,1))` is `Ok` with tag 2; `vector(3,-2,5).sub(point(-2,3,1))` is `Ok` with tag -1 | reject point + point and vector - point, as the messages at src/tuples.rs:81 and :93 say, as do the step names at tests/tuples.rs:140 ("a1 + a2 = InvalidOperation", for two points, although its code at :142 calls `-`) and tests/tuples.rs:190 ("a1 - a2 = InvalidOperation", vector minus point, expecting `InvalidSubtraction` at :193); i.e. reject a result that is neither a point nor a vector | high; not executed | `Tuples.PointPlusPointAccepted`, `Tuples.VectorMinusPointAccepted` | `Tuples.CheckedAdd`, `Tuples.CheckedSub`, `Tuples.CheckedOpsRejectExactlyMeaningless` |

The in-place methods `PVRef.Add` and `PVRef.Sub` keep the code's behaviour. The corrected
rule is given as the pure functions `CheckedAdd` and `CheckedSub`. Nothing else in the
model combines tuples.

## Left out

- Floating point: rounding, NaN, infinities and signed zero are not modelled. Scalars are
  exact reals. The split between f32 (src/tuples.rs) and f64 (src/point.rs) shows up only
  in which epsilon each comparison uses.
- Simulate: the 22 ticks and the final position (19.69, -0.1, 0) hold in exact arithmetic.
  With f64, `0.1` and `0.01` are not exact, so the last coordinates differ by rounding.
- Points.Div: requires a non-zero divisor. With f64, dividing by zero gives infinities or
  NaN, which reals cannot represent.
- Colors.Eq: channel equality is Dafny's exact equality. For `RGB<f32>`, a NaN channel makes
  the source's equality non-reflexive; that case is not modelled.
- `Vector`: src/vector.rs is not part of this model. Only what its callers use is
  modelled: the accessors used at src/point.rs:32-34, `Vector::new` as called at
  src/main.rs:49-50, ASSUMED to store its arguments in x, y, z order (`Vectors.New`), and
  `Vector + Vector`, needed by src/main.rs:17, ASSUMED to be componentwise (`Vectors.Plus`).
  `Simulation.MainEnvironmentStep`, `Simulation.TickFollowsClosedForm` and the end point of
  `Simulation.Simulate` rest on both assumptions.
- The `Display` impls of the unit structs `InvalidAddition` and `InvalidSubtraction`
  (src/tuples.rs:74-96) only format text. They are separate from the `InvalidOperation`
  enum, which is modelled.
- The `println!` calls in `main` are output only. `Simulate` returns the sequence of
  positions the loop visits, which are the positions `main` prints.
- Operator `+`/`-` on `PV`, used in tests/tuples.rs:112-192, unary `-` on `PV`, used in
  tests/tuples.rs:208, and `*`, `/`, `mag`, `norm` and `dot` on `PV`, used in
  tests/tuples.rs:219-352, do not exist in src/tuples.rs. `mag` and `norm` would also need a
  square root.
- The cucumber/tokio test scaffolding, and the remark about RGB16 byte order
  (src/color.rs:13-16): this code does no byte handling.
- Derived `Debug` and `Clone`/`Copy` have no behaviour to model. Datatype values are
  copied by construction. The derived `Default` of `Projectile` and `Environment`
  (src/main.rs:3, src/main.rs:9) is not modelled, because it rests on `Vector`'s `Default`,
  whose source (src/vector.rs) is not part of this model.
