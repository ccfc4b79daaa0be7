# Morpho generative-geometry core, modelled in Dafny

Morpho is a set of Python scripts run inside Dynamo to generate geometry
from rules. This project models three parts of it and proves properties of
each.

- **L-systems** (`package/extra/python/morpho_lsystems.py`). These are the
  twelve built-in presets, the string-rewriting engine `LSystem.generate`,
  the parser for custom rules in `"F=FF+F,X=FX"` form, and the 2D and 3D
  turtle interpreters. The module also holds the `generate_2d` /
  `generate_3d` entry points and the preset queries.
- **Shared utilities** (`python/morpho_utils.py`). These cover angle
  conversion, points on circles and regular polygons, lerp and midpoint,
  centroid, range mapping, clamp, flatten, chunks, scaling and 2D rotation
  of points, and the Fibonacci sequence.
- **Gray-Scott reaction-diffusion** (`package/extra/python/morpho_patterns.py`).
  This covers the seeded simulation with its toroidal Laplacian and clamped
  update, and the conversion of a pattern to a point list. It also covers
  the sampled point grid a surface is built from, and the feed/kill-rate
  presets.

Modules:

- `Common`: `Option`, `Result` (Python's `ValueError` as a value) and `Max`.
- `Text`: the `str.split`, `str.strip` and `str.join` the parser relies on.
- `Geometry`: the utilities.
- `LSystems`: presets, rewriting and configuration.
- `Turtle`: the interpreters and entry points.
- `ReactionDiffusion`: the pattern slice.

Where Python loops, the model has a `method` with a loop. Its `ensures` ties
the result to a specification function: a fold over the input or a grid
comprehension. The properties are proved about that function. Dynamo
geometry (`Point`, `Line`) becomes plain datatypes of reals. `math.cos` and
`math.sin` become an uninterpreted pair of functions (`Trig`) passed in.

## Model

| member | source | states |
|---|---|---|
| Text.Split | package/extra/python/morpho_lsystems.py:414-415 | `str.split` with a one-character separator; its partner SplitJoin proves the pieces are separator-free and join back to the string |
| Text.Join | package/extra/python/morpho_lsystems.py:150 | `sep.join(parts)`: the parts with the separator between each two; SplitJoin uses it as the inverse of Split |
| Text.Strip | package/extra/python/morpho_lsystems.py:415-417 | `str.strip()`: right-strip after left-strip; characterised by StripSpec and StripIdempotent |
| Text.SplitJoin | package/extra/python/morpho_lsystems.py:414-415 | `split` yields at least one piece, no piece contains the separator, and joining the pieces with it gives the string back |
| Text.LStripSpec | package/extra/python/morpho_lsystems.py:415 | left-strip removes exactly the longest whitespace prefix: the result is a suffix, everything removed is whitespace, and the result does not start with whitespace |
| Text.RStripSpec | package/extra/python/morpho_lsystems.py:415 | right-strip removes exactly the longest whitespace suffix, symmetrically |
| Text.StripSpec | package/extra/python/morpho_lsystems.py:415-417 | `strip` returns the middle slice between leading and trailing whitespace, and that slice neither starts nor ends with whitespace |
| Text.StripIdempotent | package/extra/python/morpho_lsystems.py:415-417 | stripping twice equals stripping once |
| Geometry.DegreesToRadians | python/morpho_utils.py:17-19 | degrees times pi over 180; DegreesRoundTrip and RadiansRoundTrip prove it inverse to RadiansToDegrees |
| Geometry.RadiansToDegrees | python/morpho_utils.py:22-24 | radians times 180 over pi; the inverse of DegreesToRadians by the two round-trip lemmas |
| Geometry.DegreesRoundTrip | python/morpho_utils.py:17-24 | converting degrees to radians and back is the identity |
| Geometry.RadiansRoundTrip | python/morpho_utils.py:17-24 | converting radians to degrees and back is the identity |
| Geometry.PointAtAngle | python/morpho_utils.py:27-41 | the point at an angle keeps the centre's z |
| Geometry.PointAtZeroDistance | python/morpho_utils.py:27-41 | at distance 0 the point is the centre itself |
| Geometry.Lerp | python/morpho_utils.py:44-60 | linear interpolation per coordinate; LerpEndpoints and LerpReversed state its endpoints and symmetry |
| Geometry.LerpEndpoints | python/morpho_utils.py:44-60 | lerp at t = 0 is p1 and at t = 1 is p2 |
| Geometry.LerpReversed | python/morpho_utils.py:44-60 | lerp from p1 to p2 at t equals lerp from p2 to p1 at 1 - t |
| Geometry.Midpoint | python/morpho_utils.py:63-65 | lerp at 0.5; MidpointSymmetric proves it order-independent and equidistant from both ends |
| Geometry.MidpointSymmetric | python/morpho_utils.py:63-65 | the midpoint does not depend on argument order and lies as far from p1 as from p2 in every coordinate |
| Geometry.SumPoints | python/morpho_utils.py:81-83 | the coordinate sums of the points; SumOfCopies gives its value on copies of one point |
| Geometry.Centroid | python/morpho_utils.py:76-86 | the centroid is an error exactly when the list is empty |
| Geometry.SumOfCopies | python/morpho_utils.py:81-83 | the coordinate sums of n copies of p are n times p's coordinates |
| Geometry.CentroidOfCopies | python/morpho_utils.py:76-86 | the centroid of copies of one point is that point |
| Geometry.CentroidOfOne | python/morpho_utils.py:76-86 | the centroid of a single point is the point |
| Geometry.PolygonAnglesEvenlySpaced | python/morpho_utils.py:102-105 | vertex 0 sits at rotation - pi/2, and consecutive vertex angles differ by 2pi/sides |
| Geometry.RegularPolygonPoints | python/morpho_utils.py:89-106 | one point per side (none for a non-positive count); point i lies on the circle at vertex angle i; every point keeps the centre's z |
| Geometry.MapValue | python/morpho_utils.py:109-123 | the affine map from [in_min, in_max] onto [out_min, out_max]; MapValueEndpoints proves it sends the input bounds to the output bounds |
| Geometry.MapValueEndpoints | python/morpho_utils.py:109-123 | the input minimum maps to the output minimum and the input maximum to the output maximum |
| Geometry.Clamp | python/morpho_utils.py:126-128 | the result lies in [lo, hi] when lo <= hi, is the value when it is already inside, is lo when lo > hi, and is always one of lo, hi, value |
| Geometry.ClampIdempotent | python/morpho_utils.py:126-128 | clamping twice equals clamping once |
| Geometry.Flatten2D | python/morpho_utils.py:131-133 | the sublists concatenated in order; FlattenLength and FlattenAppend state its length and that it distributes over concatenation |
| Geometry.FlattenLength | python/morpho_utils.py:131-133 | the flattened list is as long as all sublists together |
| Geometry.FlattenAppend | python/morpho_utils.py:131-133 | flattening distributes over concatenation |
| Geometry.Chunks | python/morpho_utils.py:136-138 | the slices `lst[i:i + n]` for `i` in `range(0, len(lst), n)`; ChunksProperties proves Flatten2D inverts it for n > 0 |
| Geometry.ChunksProperties | python/morpho_utils.py:136-138 | for n > 0 the chunks flatten back to the list; all but the last have n items; the last has 1 to n items; no chunks only for the empty list |
| Geometry.ChunksNegative | python/morpho_utils.py:136-138 | a negative chunk size yields no chunks |
| Geometry.ScaleCoordinate | python/morpho_utils.py:181-185 | one coordinate moved away from the centre by the scale; ScaleCoordinateCompose proves two scalings compose by the product |
| Geometry.ScalePoint | python/morpho_utils.py:165-185 | each coordinate scaled about the centre; ScalePointFixed and ScalePointCompose state its fixed points and composition |
| Geometry.ScalePointFixed | python/morpho_utils.py:165-185 | scale 1 keeps the point, scale 0 gives the centre, and the centre is fixed at every scale |
| Geometry.ScaleCoordinateCompose | python/morpho_utils.py:181-185 | scaling one coordinate by s1 then s2 about one centre is scaling it by s1 * s2 |
| Geometry.ScalePointCompose | python/morpho_utils.py:165-185 | scaling by s1 then s2 about one centre is scaling by s1 * s2 |
| Geometry.RotatePoint2D | python/morpho_utils.py:141-162 | rotation keeps the point's z |
| Geometry.RotatePoint2DFixed | python/morpho_utils.py:141-162 | the centre is fixed, and an angle with cosine 1 and sine 0 moves nothing |
| Geometry.Fib | python/morpho_utils.py:193-205 | the Fibonacci numbers from 0, 1; FibonacciSequence proves the loop lists them |
| Geometry.FibonacciSequence | python/morpho_utils.py:193-205 | the list holds max(n, 0) numbers, number i is the i-th Fibonacci number, it starts 0, 1 and each later number is the sum of the two before |
| LSystems.ListPresets | package/extra/python/morpho_lsystems.py:490-497 | the names are exactly the preset table's keys, each listed once |
| LSystems.PresetNamesDistinct | package/extra/python/morpho_lsystems.py:30-108 | the twelve preset names are pairwise different |
| LSystems.FromPreset | package/extra/python/morpho_lsystems.py:139-158 | loading succeeds exactly for a known name; it gives that preset's axiom, rules and angle; otherwise it fails with "Unknown preset '<name>'. Available: " and the names joined by ", " |
| LSystems.GetPresetInfo | package/extra/python/morpho_lsystems.py:472-487 | no name gives every preset; a known name gives just that entry; an unknown name gives the "Unknown preset: <name>" error entry |
| LSystems.PresetLookupsAgree | package/extra/python/morpho_lsystems.py:139-158 | the info query reports an error exactly when loading the preset fails, and otherwise shows the loaded system's data |
| LSystems.ListedPresetsBuild | package/extra/python/morpho_lsystems.py:490-497 | every listed name loads |
| LSystems.Rewrite | package/extra/python/morpho_lsystems.py:176 | `rules.get(c, c)`: the rule for the one-character key, or the character itself; PassWithoutRules, PassSameCharRules and DropLongKey state what it looks up |
| LSystems.Pass | package/extra/python/morpho_lsystems.py:173-177 | one pass: the replacements of the characters concatenated in order; PassConcat and PassLength state its homomorphism and length |
| LSystems.Iterate | package/extra/python/morpho_lsystems.py:170-179 | the axiom after n passes; Generate proves the loop computes it, and IterateAdd and IterateConcat state how passes compose |
| LSystems.PassSnoc | package/extra/python/morpho_lsystems.py:173-177 | one more character adds its replacement at the end of the pass |
| LSystems.Generate | package/extra/python/morpho_lsystems.py:160-179 | the loop's result is the axiom rewritten max(iterations, 0) times, every character replaced by its rule or kept |
| LSystems.PassConcat | package/extra/python/morpho_lsystems.py:173-177 | a pass over a concatenation is the concatenation of the passes |
| LSystems.PassLength | package/extra/python/morpho_lsystems.py:173-177 | a pass is as long as the replacements of its characters together |
| LSystems.PassWithoutRules | package/extra/python/morpho_lsystems.py:176 | a string none of whose characters has a rule is left unchanged |
| LSystems.IterateWithoutRules | package/extra/python/morpho_lsystems.py:170-179 | with no rules, any number of passes gives the axiom back |
| LSystems.PassSameCharRules | package/extra/python/morpho_lsystems.py:176 | two rule tables that rewrite every character alike give the same pass |
| LSystems.IterateSameCharRules | package/extra/python/morpho_lsystems.py:170-179 | such tables give the same result after any number of passes |
| LSystems.DropLongKey | package/extra/python/morpho_lsystems.py:176 | a rule whose key is not one character long never fires, so removing it changes nothing |
| LSystems.PenroseDeadRule | package/extra/python/morpho_lsystems.py:85 | the penrose preset's "telefonf]" rule has no effect on any string |
| LSystems.IterateAdd | package/extra/python/morpho_lsystems.py:170-179 | m + n passes equal n passes after m |
| LSystems.IterateFirstPass | package/extra/python/morpho_lsystems.py:170-179 | n + 1 passes equal n passes applied to the first pass |
| LSystems.IterateConcat | package/extra/python/morpho_lsystems.py:170-179 | the two halves of a string develop independently: iterating a concatenation is concatenating the iterates |
| LSystems.ParseRule | package/extra/python/morpho_lsystems.py:415-417 | a piece stripped and split at "="; a rule (stripped key, stripped value) exactly when there are two parts; CollectDomain and CollectLastWins state which of these rules the table keeps |
| LSystems.Collect | package/extra/python/morpho_lsystems.py:413-417 | the rules entered into the dictionary in order; CollectDomain and CollectLastWins state its keys and that the last definition wins |
| LSystems.RulesOf | package/extra/python/morpho_lsystems.py:413-417 | the rule table of a custom-rules text split at ","; ParseCustomRules proves the parsing loop builds it |
| LSystems.CollectDomain | package/extra/python/morpho_lsystems.py:413-417 | a key is in the rule table exactly when some piece splits into exactly two parts around "=" and its stripped left part is that key |
| LSystems.CollectLastWins | package/extra/python/morpho_lsystems.py:417 | when several pieces define a key, the last one's stripped replacement is the one kept |
| LSystems.ParseCustomRules | package/extra/python/morpho_lsystems.py:413-417 | the parsing loop builds exactly the rule table of the text |
| LSystems.Configuration | package/extra/python/morpho_lsystems.py:405-420 | a preset name loads that preset; otherwise the missing custom rules are exactly the error case, with its message; otherwise the axiom is the string itself, the rules are the parsed text, and the angle is the custom one or 25 |
| LSystems.Configure | package/extra/python/morpho_lsystems.py:405-420 | the branching code computes that configuration |
| Turtle.Start2D | package/extra/python/morpho_lsystems.py:205-208 | the start point, initial angle and length with an empty stack and no lines; the initial state Interpret2D folds from |
| Turtle.Step2D | package/extra/python/morpho_lsystems.py:211-249 | one 2D command as a state transition; Command2D proves the loop body performs it |
| Turtle.Run2D | package/extra/python/morpho_lsystems.py:210-249 | Step2D folded over the command string; Interpret2D proves the loop computes it, Run2DConcat and the bracket lemmas state its properties |
| Turtle.Command2D | package/extra/python/morpho_lsystems.py:211-249 | one command of the 2D loop performs the turtle step: F/G draws a segment and moves, f moves, + and - turn by the angle, [ pushes and shortens the step, ] pops if it can, and \| turns around |
| Turtle.Interpret2D | package/extra/python/morpho_lsystems.py:181-251 | the loop's lines are those of folding the step over the string from the start point; one line per F or G; every line lies in the start point's plane |
| Turtle.Run2DSnoc | package/extra/python/morpho_lsystems.py:210 | one more command is one more step |
| Turtle.Run2DConcat | package/extra/python/morpho_lsystems.py:210-249 | interpreting a + b is interpreting b from where a leaves the turtle |
| Turtle.LinesGrow2D | package/extra/python/morpho_lsystems.py:211-219 | lines are only appended, exactly one per F or G |
| Turtle.StaysInPlane2D | package/extra/python/morpho_lsystems.py:205-219 | every line stays in the plane z = start z |
| Turtle.Stack2D | package/extra/python/morpho_lsystems.py:237-245 | a string that never pops below its start leaves the saved states below it untouched, and grows the stack by its bracket depth |
| Turtle.BracketRestores2D | package/extra/python/morpho_lsystems.py:237-245 | after "[" w "]" with w balanced, the position, direction, step length and stack are as before, and one line was added per F or G of w |
| Turtle.EmptyPop2D | package/extra/python/morpho_lsystems.py:242-245 | "]" on an empty stack changes nothing |
| Turtle.TurnsCancel2D | package/extra/python/morpho_lsystems.py:229-235 | "+-" and "-+" leave the turtle as it was |
| Turtle.IgnoresUnknown2D | package/extra/python/morpho_lsystems.py:210-249 | characters that are not commands change nothing: the drawing equals that of the string without them |
| Turtle.StationaryKeepsPosition2D | package/extra/python/morpho_lsystems.py:229-249 | a string of turns, pushes and ignored characters (no F, G, f or ]) keeps the position and the lines as they were |
| Turtle.Connected2D | package/extra/python/morpho_lsystems.py:211-221 | a segment drawn after another with only turns between them starts where the previous one ended |
| Turtle.RotateVector | package/extra/python/morpho_lsystems.py:355-371 | Rodrigues rotation about an axis; RotateByZero and RotateAboutItself state its identity angle and its fixed axis |
| Turtle.RotateByZero | package/extra/python/morpho_lsystems.py:355-371 | Rodrigues' formula with cosine 1 and sine 0 returns the vector |
| Turtle.RotateAboutItself | package/extra/python/morpho_lsystems.py:355-371 | a unit axis is not moved by any rotation about itself |
| Turtle.Run3DSnoc | package/extra/python/morpho_lsystems.py:294 | one more command is one more 3D step |
| Turtle.Start3D | package/extra/python/morpho_lsystems.py:280-290 | the start frame: the given heading or (0, 0, 1), left (-1, 0, 0), up (0, 1, 0); the initial state Interpret3D folds from |
| Turtle.Step3D | package/extra/python/morpho_lsystems.py:295-351 | one 3D command as a frame transition; Command3D proves the loop body performs it |
| Turtle.Run3D | package/extra/python/morpho_lsystems.py:294-351 | Step3D folded over the command string; Interpret3D proves the loop computes it |
| Turtle.Command3D | package/extra/python/morpho_lsystems.py:295-351 | one command of the 3D loop performs the 3D step: yaw about up, pitch about left, roll about heading, push and pop of the whole frame |
| Turtle.Interpret3D | package/extra/python/morpho_lsystems.py:253-353 | the loop's lines are those of folding the 3D step from the start frame (heading (0, 0, 1) by default, left (-1, 0, 0), up (0, 1, 0)); one line per F or G |
| Turtle.Run3DConcat | package/extra/python/morpho_lsystems.py:294-351 | interpreting a + b is interpreting b from where a leaves the turtle |
| Turtle.LinesGrow3D | package/extra/python/morpho_lsystems.py:295-303 | lines are only appended, exactly one per F or G |
| Turtle.Stack3D | package/extra/python/morpho_lsystems.py:343-351 | a string that never pops below its start leaves the saved frames below it untouched, and grows the stack by its depth |
| Turtle.BracketRestores3D | package/extra/python/morpho_lsystems.py:343-351 | after "[" w "]" with w balanced, position, orientation, step length and stack are as before |
| Turtle.EmptyPop3D | package/extra/python/morpho_lsystems.py:348-351 | "]" on an empty stack changes nothing |
| Turtle.IgnoresUnknown3D | package/extra/python/morpho_lsystems.py:294-351 | unrecognised characters change nothing, and "\|" is one of them in 3D |
| Turtle.Lines2D | package/extra/python/morpho_lsystems.py:422-423 | the lines of the iterated axiom drawn from the start point heading at 90 degrees; Generate2D returns them |
| Turtle.Lines3D | package/extra/python/morpho_lsystems.py:468-469 | the lines of the iterated axiom drawn from the start point with the default heading; Generate3D returns them |
| Turtle.Generate2D | package/extra/python/morpho_lsystems.py:378-423 | a configuration error is returned as is; otherwise the lines are those of the rewritten axiom drawn from the start point (origin by default) at 90 degrees, one per F or G |
| Turtle.Generate3D | package/extra/python/morpho_lsystems.py:426-469 | the same for 3D, drawn with the default heading |
| ReactionDiffusion.Wrap | package/extra/python/morpho_patterns.py:364-367 | a wrapped neighbour index lies in the grid |
| ReactionDiffusion.WrapIsMod | package/extra/python/morpho_patterns.py:364-367 | the wrapped index is Python's `%` of the neighbour index |
| ReactionDiffusion.WrapNeighbours | package/extra/python/morpho_patterns.py:364-367 | the neighbours are the adjacent indices, wrapping from the first to the last and back |
| ReactionDiffusion.Laplacian | package/extra/python/morpho_patterns.py:358-369 | the four wrapped neighbours minus four times the centre; LaplacianOfConstant proves it zero on a uniform grid |
| ReactionDiffusion.LaplacianOfConstant | package/extra/python/morpho_patterns.py:358-369 | a uniform grid has Laplacian 0 everywhere, the border included |
| ReactionDiffusion.CellA | package/extra/python/morpho_patterns.py:385-391 | the new clamped A concentration lies in [0, 1] |
| ReactionDiffusion.CellB | package/extra/python/morpho_patterns.py:385-392 | the new clamped B concentration lies in [0, 1] |
| ReactionDiffusion.CellsAtRest | package/extra/python/morpho_patterns.py:385-392 | A = 1, B = 0 with no curvature is left unchanged by the update |
| ReactionDiffusion.Next | package/extra/python/morpho_patterns.py:374-392 | the next grids have the same shape |
| ReactionDiffusion.NextCell | package/extra/python/morpho_patterns.py:377-392 | every next cell is the clamped update of the same cell and its Laplacians |
| ReactionDiffusion.SetCell | package/extra/python/morpho_patterns.py:387-392 | assigning one cell sets it and leaves every other cell and every row length alone |
| ReactionDiffusion.Step | package/extra/python/morpho_patterns.py:374-395 | the nested loops compute exactly the next pair of grids |
| ReactionDiffusion.Simulate | package/extra/python/morpho_patterns.py:372-395 | simulation keeps the grids' shape |
| ReactionDiffusion.NextInUnit | package/extra/python/morpho_patterns.py:391-392 | every cell of a new grid lies in [0, 1] |
| ReactionDiffusion.SimulateInUnit | package/extra/python/morpho_patterns.py:372-395 | after any number of steps every concentration lies in [0, 1] |
| ReactionDiffusion.NextAtRest | package/extra/python/morpho_patterns.py:345-346 | one step from uniform A = 1, B = 0 changes nothing |
| ReactionDiffusion.NextOfUniform | package/extra/python/morpho_patterns.py:377-392 | on uniform grids every cell updates as if it had no neighbours' difference |
| ReactionDiffusion.SteadyState | package/extra/python/morpho_patterns.py:372-395 | without seeds, A = 1, B = 0 stays fixed for any number of steps |
| ReactionDiffusion.NearSeedExists | package/extra/python/morpho_patterns.py:349-355 | a cell is seeded exactly when some centre's 7 by 7 square contains it |
| ReactionDiffusion.Seeded | package/extra/python/morpho_patterns.py:346-355 | the seeded grid has the grid's shape and its values lie in [0, 1] |
| ReactionDiffusion.SeedSpots | package/extra/python/morpho_patterns.py:346-355 | the seeding loops set exactly the in-grid cells within three of a centre to 1 and leave the rest 0 |
| ReactionDiffusion.Pattern | package/extra/python/morpho_patterns.py:307-397 | the result has max(height, 0) rows of max(width, 0) cells |
| ReactionDiffusion.RunReactionDiffusion | package/extra/python/morpho_patterns.py:307-397 | the simulation returns the seeded B after max(iterations, 0) steps, and every value lies in [0, 1] |
| ReactionDiffusion.NoIterations | package/extra/python/morpho_patterns.py:372 | with no iterations the result is the seeded grid |
| ReactionDiffusion.NoSeedsNoPattern | package/extra/python/morpho_patterns.py:345-397 | without seed spots the result is all zeros, however long it runs |
| ReactionDiffusion.ToPoints | package/extra/python/morpho_patterns.py:418-432 | the points of the cells above the threshold in row-major order; PatternToPoints proves the loops compute it, ToPointsExactly and GridCellsRowMajor characterise it |
| ReactionDiffusion.PatternToPoints | package/extra/python/morpho_patterns.py:418-432 | the loops return the points of the cells above the threshold, in row-major order |
| ReactionDiffusion.RowToPoints | package/extra/python/morpho_patterns.py:423-430 | the inner loop returns the points of the row's cells above the threshold |
| ReactionDiffusion.PointsOfAppend | package/extra/python/morpho_patterns.py:426-430 | the points of two runs of cells are those of the first, then those of the second |
| ReactionDiffusion.RowCellsSound | package/extra/python/morpho_patterns.py:423-425 | every listed cell of a row is in that row, within the scanned columns, and above the threshold |
| ReactionDiffusion.GridCellsSound | package/extra/python/morpho_patterns.py:419-425 | every listed cell is in the scanned rows, within the width, and above the threshold |
| ReactionDiffusion.PointsOfSnoc | package/extra/python/morpho_patterns.py:426-430 | one more cell appends its point |
| ReactionDiffusion.RowCellsComplete | package/extra/python/morpho_patterns.py:423-425 | every scanned cell of a row above the threshold is listed |
| ReactionDiffusion.GridCellsComplete | package/extra/python/morpho_patterns.py:419-425 | every cell within the rows and width above the threshold is listed |
| ReactionDiffusion.RowCellsRowMajor | package/extra/python/morpho_patterns.py:423 | a row's cells are listed left to right, each once |
| ReactionDiffusion.GridCellsRowMajor | package/extra/python/morpho_patterns.py:422-423 | all cells are listed in strictly increasing row-major order, so none twice |
| ReactionDiffusion.ToPointsExactly | package/extra/python/morpho_patterns.py:418-432 | a point is returned exactly when it is the scaled point of some cell within height and width whose value is above the threshold |
| ReactionDiffusion.RowCellsCount | package/extra/python/morpho_patterns.py:423-430 | a row gives at most one point per cell, and exactly one per cell when all are above the threshold |
| ReactionDiffusion.Range | package/extra/python/morpho_patterns.py:458-460 | every value of the range lies in [start, stop) |
| ReactionDiffusion.RangeShape | package/extra/python/morpho_patterns.py:458-460 | the range is empty exactly when start >= stop; it starts at start, goes up by step, and stops at the last value before stop |
| ReactionDiffusion.RangeMembers | package/extra/python/morpho_patterns.py:458-460 | a value is in the range exactly when it lies in [start, stop) and differs from start by a multiple of step |
| ReactionDiffusion.RangeByOne | package/extra/python/morpho_patterns.py:458-460 | with step 1 the range lists every integer of [start, stop) |
| ReactionDiffusion.Stride | package/extra/python/morpho_patterns.py:456 | the sampling step is at least 1 |
| ReactionDiffusion.SampledRow | package/extra/python/morpho_patterns.py:460-466 | the points of one row at columns 0, step, 2 step, ...; SampledRowIsRange ties it to `range(0, width, step)` |
| ReactionDiffusion.SampledRows | package/extra/python/morpho_patterns.py:458-467 | the sampled rows at rows 0, step, 2 step, ...; SampledRowsIsRange ties it to `range(0, height, step)` |
| ReactionDiffusion.Surface | package/extra/python/morpho_patterns.py:451-467 | the point grid the surface is built from; PatternToSurface proves the loops compute it, SurfaceSound and SurfaceComplete characterise it |
| ReactionDiffusion.SampledColumnBelow | package/extra/python/morpho_patterns.py:460 | every column `range(0, width, step)` yields is at or before the last multiple of the step below the width |
| ReactionDiffusion.LastSampledColumn | package/extra/python/morpho_patterns.py:460 | the last multiple of the step below the width is itself a column the sampling visits |
| ReactionDiffusion.SampledCellInRow | package/extra/python/morpho_patterns.py:458-461 | in a pattern whose sampled rows reach the last sampled column, every cell the loops read lies inside its row |
| ReactionDiffusion.SampledRowLongEnough | package/extra/python/morpho_patterns.py:458-461 | conversely, if every cell the loops read lies inside its row, every sampled row reaches the last sampled column |
| ReactionDiffusion.SampledReadableExactly | package/extra/python/morpho_patterns.py:458-461 | the precondition of PatternToSurface holds exactly when every `pattern[y][x]` the sampling loops read is in range, so it excludes exactly the patterns on which Python raises `IndexError` |
| ReactionDiffusion.ReadableIsSampledReadable | package/extra/python/morpho_patterns.py:452-461 | a pattern whose rows are all at least as long as the first can be sampled |
| ReactionDiffusion.PatternToSurface | package/extra/python/morpho_patterns.py:451-467 | on every pattern whose sampled cells are in range, the loops build exactly the sampled point grid |
| ReactionDiffusion.SampleRow | package/extra/python/morpho_patterns.py:459-467 | on a sampled row that reaches the last sampled column, the inner loop builds exactly the sampled row |
| ReactionDiffusion.SampledRowIsRange | package/extra/python/morpho_patterns.py:460-466 | a sampled row holds the points of the columns range(0, width, step), in order |
| ReactionDiffusion.SampledRowsIsRange | package/extra/python/morpho_patterns.py:458-467 | the sampled rows are the rows range(0, height, step), in order |
| ReactionDiffusion.SurfaceSound | package/extra/python/morpho_patterns.py:451-467 | every grid point is the scaled point of an in-pattern cell whose row and column are multiples of the step |
| ReactionDiffusion.SurfaceComplete | package/extra/python/morpho_patterns.py:451-467 | every such cell's point is on the grid |
| ReactionDiffusion.FullResolution | package/extra/python/morpho_patterns.py:456-467 | a pattern narrower than 100 cells is not thinned: the grid has every row and every column |
| ReactionDiffusion.GetRdPreset | package/extra/python/morpho_patterns.py:487-502 | a preset is found exactly when the name is a key, and then its (feed, kill) pair is returned; otherwise the error is "Unknown preset '<name>'. Available: " followed by the preset names joined by ", " |
| ReactionDiffusion.RdPresetNamesAreKeys | package/extra/python/morpho_patterns.py:476-484 | the names in the error message are exactly the table's keys, each once, and every one loads |
| ReactionDiffusion.RdPresetRates | package/extra/python/morpho_patterns.py:476-484 | every preset's rates lie strictly between 0 and 0.1, and its feed rate is at most its kill rate |

## Left out

- Dynamo geometry calls (`Point.ByCoordinates`, `Line.ByStartPointEndPoint`, `Vector`): points, lines and vectors are plain tuples of reals.
- `NurbsSurface.ByPoints`: `PatternToSurface` returns the point grid the surface is built from, not a surface.
- Floating point: every quantity is an exact real, so rounding, NaN and infinities are not modelled.
- `math.cos`, `math.sin` and `math.pi`: cos and sin are an uninterpreted `Trig` parameter, and pi is the constant 3.141592653589793.
- `distance` and `golden_ratio` in `python/morpho_utils.py`: both need a square root, which exact reals do not provide.
- `Vector.Normalized` in `interpret_3d`: the initial heading is taken as given. It is treated as already of unit length, and the default (0, 0, 1) is.
- `random.seed` / `random.randint` in `reaction_diffusion`: the ten spot centres are a parameter. The `ValueError` that `randint` raises for width or height below 20 is not modelled.
- The Dynamo `IN`/`OUT` entry block of `morpho_lsystems.py`: it is host I/O.
- Python default arguments: every parameter is explicit.
- The other patterns of `morpho_patterns.py` (spirals, phyllotaxis, waves, moiré): they are not part of this model.
- ReactionDiffusion.PatternToPoints: it requires every row to be at least as long as the first, so that every cell the loops read exists. On a shorter row Python raises `IndexError`, and that error path is not modelled.
- ReactionDiffusion.PatternToSurface: it requires every sampled row to reach the last sampled column. SampledReadableExactly proves that this is exactly the condition for every cell the loops read to exist. The `IndexError` Python raises otherwise is not modelled.
- Geometry.MapValue: it requires in_max != in_min, where Python raises `ZeroDivisionError`.
- Geometry.Chunks: it requires n != 0, where Python's `range` raises `ValueError`.
- ReactionDiffusion.WrapIsMod: it is stated only for the neighbour indices -1 to n that `laplacian` uses.
- ReactionDiffusion.Step: each clamped cell is written once, rather than written and then overwritten with its clamp.
