# Noesis kernels in Dafny

Noesis is a React application of interactive science pages. Each page draws
on a canvas. Behind the drawing sits a small computational kernel, and this
project models those kernels as pure Dafny functions over exact reals,
together with the properties the pages rely on:

- **Graphing pages (MathNew.jsx, Math.jsx).**
  - The pixel/graph coordinate maps, panning and the clamped zoom controls (`Viewport`).
  - The power-of-ten grid (`GridLines`) and the colour cycle (`Palette`).
  - The geometry board's points: snapping, the topmost-point hit test, dragging and point creation (`Geometry`).
  - The function list (`FunctionList`) and slider-parameter reconciliation (`Parameters`).
  - The input box's point notation and shape shortcuts (`Notation`).
  - The board state with its shared id counter (`Board`).
  - The central-difference derivative and the critical-point scan (`Calculus`).
  - The JavaScript string primitives these use (`JsText`).
- **Fluid page (FluidDynamics.jsx).**
  - The spatial hash and its 3x3 gather (`SpatialHash`).
  - The density kernel, pressure, pair forces, the integration and wall step, the in-place force pass, spawning and reset (`Fluid`).
- **Newton's cradle (NewtonsCradle.jsx).** The pendulum step, the pairwise collision sweep with its velocity-transfer and elastic branches, and the statistics (`Cradle`).
- **Closed-form pages.**
  - Pascal's-law press and its piston animation (`Pascal`).
  - The magnetic-field strength heuristics and compass (`Magnetic`).
  - The thin lens (`Lens`) and Snell refraction with total internal reflection (`Refraction`).
  - The dispersing prism (`Prism`).
  - Electric-field superposition with its near-charge guard and the charge editing handlers (`Electric`).
  - Faraday induction with the damped magnet (`Faraday`).

Transcendental functions (sin, cos, asin, sqrt, exp, atan2) are fields of a
record `Transcendental.Fns` that callers pass in. A member that needs a fact
about them requires only that law: the Pythagorean identity, asin inverting
sin on [-1, 1], the square root, exp being positive and increasing, or atan2
recovering its arguments. The mathjs expression evaluator is an abstract
`real -> Option<real>`. The mathjs parser's symbol list is an abstract
`string -> Option<seq<string>>`. Random draws, timer readings and pointer
positions are parameters.

## Model

| member | source | states |
|---|---|---|
| Viewport.PixelToGraph | noesis/src/pages/MathNew.jsx:35-41 | Without a canvas the answer is the origin. Otherwise the graph offset from the view centre, times the scale, is the pixel offset from the canvas centre, with y flipped. |
| Viewport.GraphToPixel | noesis/src/pages/MathNew.jsx:43-49 | Without a canvas the answer is the origin. Otherwise the pixel offset from the canvas centre, over the scale, is the graph offset from the view centre, with y flipped. |
| Viewport.PixelRoundTrip | noesis/src/pages/MathNew.jsx:35-49 | For a positive scale, mapping a pixel to the graph and back returns the same pixel. |
| Viewport.GraphRoundTrip | noesis/src/pages/Math.jsx:111-125 | For a positive scale, mapping a graph point to pixels and back returns the same graph point. |
| Viewport.Pan | noesis/src/pages/MathNew.jsx:521-528 | A background drag keeps the scale. The centre moves against the pointer by the pointer's travel in graph units, measured from the press. |
| Viewport.PanKeepsGrabbedPoint | noesis/src/pages/Math.jsx:448-455 | The graph point under the press pixel in the press-time view is under the current pixel in the panned view. |
| Viewport.Wheel | noesis/src/pages/MathNew.jsx:580-587 | The wheel keeps the centre and multiplies the scale by 0.9 for a positive delta and by 1.1 otherwise. A product below the minimum or above the maximum is replaced by that bound. From an in-range scale, a positive delta never zooms in and any other delta never zooms out. |
| Viewport.ZoomIn | noesis/src/pages/MathNew.jsx:590 | The button keeps the centre and multiplies the scale by the page's step (1.3 here), or sets it to the maximum when the product exceeds it. From an in-range scale it stays in range and does not shrink. |
| Viewport.ZoomOut | noesis/src/pages/MathNew.jsx:591 | The button keeps the centre and divides the scale by the page's step, or sets it to the minimum when the quotient falls below it. From an in-range scale it stays in range and does not grow. |
| Viewport.ResetView | noesis/src/pages/MathNew.jsx:589 | Reset returns to the origin at scale 40, which is inside both pages' bounds. |
| Viewport.ZoomOutUndoesZoomIn | noesis/src/pages/MathNew.jsx:590-591 | Zooming out after a zoom in that the maximum did not cap restores the view. |
| Viewport.ZoomInUndoesZoomOut | noesis/src/pages/MathNew.jsx:590-591 | Zooming in after a zoom out that the minimum did not floor restores the view. |
| Viewport.ApplyAll | noesis/src/pages/Math.jsx:487-549 | Any sequence of wheel, button, reset and pan operations keeps an in-range scale in range, with Math.jsx's [1, 200] or MathNew.jsx's [5, 200]. |
| Viewport.SessionKeepsScale | noesis/src/pages/MathNew.jsx:580-591 | From the initial view, no session of view operations takes the scale outside the page's bounds or to zero. |
| GridLines.Log10Floor | noesis/src/pages/Math.jsx:192 | `floor(log10 v)` is the integer k with 10^k <= v < 10^(k+1). |
| GridLines.GridSpacing | noesis/src/pages/Math.jsx:192 | The spacing is a power of ten: the largest one not above 50/scale, so the next power of ten exceeds 50/scale. |
| GridLines.GridCellWidth | noesis/src/pages/Math.jsx:192-193 | One grid cell is more than 5 and at most 50 pixels wide, at every scale. |
| GridLines.GridStart | noesis/src/pages/Math.jsx:200-201 | The first gridline lies at or below the visible minimum, by less than one spacing. |
| Palette.ColorFor | noesis/src/pages/MathNew.jsx:568 | The colour index is in the ten-colour palette and agrees with the item count modulo ten. |
| JsText.LowerAscii | noesis/src/pages/MathNew.jsx:651 | The `i` flag folds exactly the ASCII capitals to their lower-case letters and leaves every other character alone. |
| JsText.SkipSpace | noesis/src/pages/MathNew.jsx:605 | `\s*` consumes exactly a maximal run of JavaScript white space. |
| JsText.Trim | noesis/src/pages/MathNew.jsx:653 | `trim` returns a contiguous piece of the input that neither starts nor ends with white space. |
| JsText.TrimEmptyIffBlank | noesis/src/pages/MathNew.jsx:130 | `expression.trim()` is empty exactly when the expression is all white space. |
| JsText.TrimTrimmed | noesis/src/pages/MathNew.jsx:660-661 | Trimming text that has no white space at either end returns it unchanged. |
| Geometry.Snap | noesis/src/pages/MathNew.jsx:51-55 | With snapping off the value is kept. With snapping on the result is a multiple of 0.5, and the value lies in its half-open window [r - 0.25, r + 0.25), so halves round up. |
| Geometry.SnapNearest | noesis/src/pages/MathNew.jsx:54 | Snapping lands on the only half-unit grid value whose window holds the input. |
| Geometry.SnapIdempotent | noesis/src/pages/MathNew.jsx:51-55 | Snapping a snapped value changes nothing. |
| Geometry.TopHit | noesis/src/pages/MathNew.jsx:174-181 | The downward scan finds a hit with no hit above it. It finds nothing exactly when no object in range is hit. |
| Geometry.ObjectAt | noesis/src/pages/MathNew.jsx:172-183 | The hit test returns the highest-index visible point within the tolerance, or nothing exactly when no visible point is within it. |
| Geometry.HitsBySquaredDistance | noesis/src/pages/MathNew.jsx:179 | Being within the tolerance is the squared screen distance being below the squared tolerance, for a positive tolerance. A tolerance that is not positive hits nothing. |
| Geometry.DragPoint | noesis/src/pages/MathNew.jsx:513-519 | Dragging moves every object with the dragged id to the snapped graph position under the pointer. Every other object is unchanged. |
| Geometry.DragSettles | noesis/src/pages/MathNew.jsx:517-519 | Dragging to the same pixel twice equals dragging once. With snapping on, the dragged point sits on the half-unit grid. |
| Geometry.LabelFor | noesis/src/pages/MathNew.jsx:567 | `String.fromCharCode(64 + id)` yields a 16-bit code unit congruent to 64 + id modulo 2^16. |
| Geometry.LabelsAreCapitals | noesis/src/pages/MathNew.jsx:567 | Ids 1 to 26 are labelled 'A' to 'Z' in order. |
| Geometry.NewPoint | noesis/src/pages/MathNew.jsx:560-570 | A point-mode click creates a visible point with the given id. It sits at the snapped graph position of the click, is labelled from its id, and is coloured by the point count. |
| FunctionList.MaxId | noesis/src/pages/Math.jsx:503 | `Math.max(0, ...ids)` is non-negative, bounds every id, and is 0 or an id in the list. |
| FunctionList.EmptyEntry | noesis/src/pages/Math.jsx:504-509 | The added row has the given id, empty text, is visible and is coloured by the row count. |
| FunctionList.AddFunction | noesis/src/pages/Math.jsx:502-510 | Math.jsx's add appends one empty visible row and keeps the rest. The new row's id is at least 1 and above every existing id, so it is fresh. |
| FunctionList.AppendEmpty | noesis/src/pages/MathNew.jsx:593-601 | MathNew.jsx's add appends one empty visible row with the counter's id and keeps the rest. |
| FunctionList.SetExpression | noesis/src/pages/Math.jsx:512-516 | An edit changes only the text of the rows with the id. Every other row is unchanged. |
| FunctionList.Toggle | noesis/src/pages/MathNew.jsx:681-683 | A row's visibility flips exactly when it has the id. Nothing else changes. |
| FunctionList.Remove | noesis/src/pages/MathNew.jsx:685-687 | No row with the id remains, the list does not grow, and removing an absent id changes nothing. |
| FunctionList.RemoveMembers | noesis/src/pages/MathNew.jsx:685-687 | The rows kept are exactly those with another id. |
| FunctionList.RemoveSingle | noesis/src/pages/MathNew.jsx:685-687 | A one-row list keeps its row exactly when the row has another id. |
| FunctionList.RemoveConcat | noesis/src/pages/MathNew.jsx:685-687 | Removing from a concatenation is removing from each part and concatenating, so the kept rows stay in their original order, as `filter` keeps them. |
| FunctionList.ToggleTwice | noesis/src/pages/Math.jsx:518-522 | Toggling twice restores the list. |
| FunctionList.SetExpressionLastWins | noesis/src/pages/Math.jsx:512-516 | Of two edits of a row, the later one wins and the earlier one leaves no trace. |
| FunctionList.RemoveUndoesAdd | noesis/src/pages/Math.jsx:502-530 | Removing the row just added gives back the original list. |
| FunctionList.RemoveAppended | noesis/src/pages/MathNew.jsx:685-687 | Removing a fresh id appended at the end gives back the original list. |
| Parameters.ExcludedLetters | noesis/src/pages/MathNew.jsx:125-137 | Of the one-letter names, exactly `x`, `y` and `e` are never parameters, case-sensitively. |
| Parameters.LetterSymbols | noesis/src/pages/MathNew.jsx:133-135 | `/[a-z]/gi` yields exactly the one-letter names of the ASCII letters in the text. |
| Parameters.ParamsOf | noesis/src/pages/MathNew.jsx:129-140 | A blank expression contributes nothing. Otherwise a row contributes exactly its extracted symbols that are not excluded. |
| Parameters.UsedParams | noesis/src/pages/MathNew.jsx:129-144 | A name is in use exactly when some row contributes it. |
| Parameters.Reconcile | noesis/src/pages/MathNew.jsx:146-159 | The sliders become the names in use, except that a name the `in` test finds on `Object.prototype` and that is not already a slider gets none. A kept name keeps its slider and a new one gets the default. |
| Parameters.LettersNotInherited | noesis/src/pages/MathNew.jsx:149 | No one-letter name is inherited from `Object.prototype`, so on the geometry board `in` is plain key membership. |
| Parameters.ReconcileNoInherited | noesis/src/pages/MathNew.jsx:146-159 | Starting from sliders with no inherited name, the sliders become exactly the used names that are not inherited. |
| Parameters.ReconcileIdempotent | noesis/src/pages/MathNew.jsx:146-159 | Reconciling twice with the same names is reconciling once. |
| Parameters.ReconcileForgets | noesis/src/pages/MathNew.jsx:146-157 | A name that leaves and comes back starts again from the default. If the name is inherited from `Object.prototype`, it gets no slider at all. |
| Parameters.GeometryParams | noesis/src/pages/MathNew.jsx:123-160 | On the geometry board the sliders are exactly the non-excluded letters of non-blank rows. Old sliders are kept and new ones start at value 2 in [-10, 10]. |
| Parameters.ParsedSymbols | noesis/src/pages/Math.jsx:54-64 | An expression that fails to parse contributes no symbols. One that parses contributes exactly the parsed symbol names. |
| Parameters.GraphParams | noesis/src/pages/Math.jsx:46-83 | On the graphing page the sliders are exactly the non-excluded parsed symbols of non-blank rows, minus inherited `Object.prototype` names such as `toString` that are not already sliders. Old sliders are kept and new ones start at value 1 in [-10, 10]. |
| Parameters.InheritedNamesGetNoSlider | noesis/src/pages/Math.jsx:69-74 | A row such as `toString * x` gives `toString` no slider, because `in` finds it on the prototype chain. |
| Notation.ScanNumber | noesis/src/pages/MathNew.jsx:605-609 | The number token `-?\d+\.?\d*` is found exactly when digits follow the optional sign. It ends before a non-digit, and its value has the sign of the text. |
| Notation.Expect | noesis/src/pages/MathNew.jsx:605 | `\s*c` succeeds exactly when the first non-space character is `c`, and resumes just after it. |
| Notation.ParsePoint | noesis/src/pages/MathNew.jsx:605-609 | Point notation must start with an ASCII letter and end with `)`. The label is that first letter. |
| Notation.ScanIntText | noesis/src/pages/MathNew.jsx:608-609 | `parseFloat` of an integer's text, followed by a non-digit, non-point character, is that integer. |
| Notation.PointRoundTrip | noesis/src/pages/MathNew.jsx:605-609 | `L = (a, b)` typed with integer coordinates parses back to L, a and b. |
| Notation.CallArgs | noesis/src/pages/MathNew.jsx:651 | A shortcut call matches only text that starts with the word in any letter case and ends with `)`. |
| Notation.CircleArg | noesis/src/pages/MathNew.jsx:651-653 | The captured radius never contains `)`. |
| Notation.TwoArgs | noesis/src/pages/MathNew.jsx:658-661 | The first argument never contains a comma and the second never contains `)`. |
| Notation.RewriteVerbatim | noesis/src/pages/MathNew.jsx:647-678 | Text without `(` that is not `heart` is stored exactly as typed. |
| Notation.CircleShortcut | noesis/src/pages/MathNew.jsx:650-655 | `circle(r)` in any letter case becomes `x^2 + y^2 = (r)^2`. That text starts with the prefix the circle renderer tests and contains `=`. |
| Notation.TwoArgsOf | noesis/src/pages/MathNew.jsx:658-661 | `word(a, b)` reads back its two arguments a and b. |
| Notation.EllipseShortcut | noesis/src/pages/MathNew.jsx:657-663 | `ellipse(a, b)` becomes `(x/(a))^2 + (y/(b))^2 = 1`. |
| Notation.HyperbolaShortcut | noesis/src/pages/MathNew.jsx:670-676 | `hyperbola(a, b)` becomes `(x/(a))^2 - (y/(b))^2 = 1`. |
| Notation.WrongInitial | noesis/src/pages/MathNew.jsx:651 | Text whose first letter differs from the word's, ignoring case, is not that shortcut. |
| Notation.HeartShortcut | noesis/src/pages/MathNew.jsx:665-668 | `heart` in any letter case becomes the fixed heart curve. |
| Board.InitialValid | noesis/src/pages/MathNew.jsx:33 | The empty board with the counter at 1 has unique ids, all below the counter. |
| Board.ClickPoint | noesis/src/pages/MathNew.jsx:560-570 | A point-mode click appends the new point with the counter's id and advances the counter. The rows are unchanged and ids stay unique. |
| Board.AddRow | noesis/src/pages/MathNew.jsx:593-601 | Adding a row draws its id from the counter, so ids stay unique. |
| Board.FindLabel | noesis/src/pages/MathNew.jsx:612 | The lookup finds the first point with the label, or nothing exactly when no point has it. |
| Board.UpsertPoint | noesis/src/pages/MathNew.jsx:611-630 | A labelled point that exists moves to the notation's coordinates and nothing else moves. Otherwise a new visible point with the next id is appended. |
| Board.RetireRow | noesis/src/pages/MathNew.jsx:632-643 | The row that held the notation is dropped. An empty row with the next id is appended exactly when the list is empty or ends in a non-blank row, so the list always ends in a blank row. |
| Board.UpdateRow | noesis/src/pages/MathNew.jsx:603-679 | Text that is not point notation is stored in the row, shortcuts expanded, and nothing else changes. Point notation is `RetireRow` after `UpsertPoint`, so it inherits both contracts: the labelled point is placed, and the row with the id is gone. |
| Board.UpsertFrame | noesis/src/pages/MathNew.jsx:611-630 | Points with another label are unchanged and at most one point is added, with the counter's id. The counter advances exactly when a point is added. |
| Board.RetireFrame | noesis/src/pages/MathNew.jsx:632-643 | The other rows keep their order and are followed by at most one new row, so the list ends blank. The counter advances exactly when a row is added. |
| Board.PointNotationFrame | noesis/src/pages/MathNew.jsx:603-644 | For point notation, nothing else changes. Points with another label and the other rows keep their values and order, at most one point and one row are added, and the counter advances once for each. |
| Board.ToggleRow | noesis/src/pages/MathNew.jsx:681-683 | Toggling on the board flips only the rows with the id and keeps the points and the counter. |
| Board.RemoveRow | noesis/src/pages/MathNew.jsx:685-687 | Removing on the board drops only the rows with the id and keeps the points and the counter. |
| Board.DragOnBoard | noesis/src/pages/MathNew.jsx:513-519 | Dragging on the board moves only the dragged point and keeps the rows and the counter. |
| Board.Step | noesis/src/pages/MathNew.jsx:513-687 | Every board operation keeps ids unique and below the counter. |
| Board.Run | noesis/src/pages/MathNew.jsx:513-687 | A session keeps the board valid and never moves the counter back. |
| Board.SessionKeepsIdsUnique | noesis/src/pages/MathNew.jsx:561 | From the empty board, no session produces two points or two rows with the same id. |
| Board.RemoveKeepsDistinct | noesis/src/pages/MathNew.jsx:686 | Filtering rows out keeps the remaining ids distinct. |
| Calculus.Derivative | noesis/src/pages/Math.jsx:138-143 | The derivative is missing exactly when f(x - h) or f(x + h) is. Otherwise, times 2h, it is their difference. |
| Calculus.DerivativeOfQuadratic | noesis/src/pages/Math.jsx:138-143 | On a quadratic the central difference is exactly 2ax + b. |
| Calculus.LoopVisitsSamples | noesis/src/pages/Math.jsx:150-156 | The loop bound `x <= maxX` admits exactly the samples k <= 500. |
| Calculus.CriticalAt | noesis/src/pages/Math.jsx:157-165 | Sample k yields a point exactly when the derivatives at k-1 and k exist with strictly opposite signs and f exists at k. It is a maximum exactly for + to -. |
| Calculus.ZeroDerivativeNeverTriggers | noesis/src/pages/Math.jsx:160 | A zero derivative makes neither its own sample nor the next one critical. |
| Calculus.ScanFrom | noesis/src/pages/Math.jsx:156-168 | The points come in strictly increasing x, all at or right of sample k, and there are at most as many as samples remain. |
| Calculus.ScanMembers | noesis/src/pages/Math.jsx:156-168 | The scan emits exactly the critical samples from k on. |
| Calculus.SampleStep | noesis/src/pages/Math.jsx:150-152 | A canvas of positive width gives a positive step. |
| Calculus.CriticalPoints | noesis/src/pages/Math.jsx:145-171 | Without a canvas the result is empty. Otherwise it is exactly the critical samples 1..500 across the visible range, left to right. |
| SpatialHash.CellOf | noesis/src/pages/FluidDynamics.jsx:158-160 | A point lies inside the 20-pixel cell it is filed under. |
| SpatialHash.NearbyInBlock | noesis/src/pages/FluidDynamics.jsx:168-184 | Points less than a cell apart on each axis are in each other's 3x3 block. |
| SpatialHash.BucketMembers | noesis/src/pages/FluidDynamics.jsx:157-166 | A bucket holds exactly the indices filed under its cell. |
| SpatialHash.BucketIncreasing | noesis/src/pages/FluidDynamics.jsx:157-166 | A bucket lists its indices in increasing order, the order the particles are visited. |
| SpatialHash.BuildGrid | noesis/src/pages/FluidDynamics.jsx:154-166 | The grid has a key exactly for the non-empty buckets, and each key maps to its bucket. |
| SpatialHash.StoredOnce | noesis/src/pages/FluidDynamics.jsx:154-166 | Every particle is stored exactly once, under its own cell and under no other. |
| SpatialHash.GatherMembers | noesis/src/pages/FluidDynamics.jsx:171-182 | The gathered candidates are exactly the particles whose start cell is in the 3x3 block. |
| SpatialHash.GatherSum | noesis/src/pages/FluidDynamics.jsx:171-182 | Summing a weight over the gathered candidates gives the sum over the block's particles. |
| SpatialHash.BlockSumIsTotal | noesis/src/pages/FluidDynamics.jsx:123-131 | When particles outside the block weigh nothing, the block sum is the brute-force sum over every particle. |
| SpatialHash.TotalSumBounds | noesis/src/pages/FluidDynamics.jsx:120-135 | With every weight in [0, 1], the total is at least any single weight and at most the particle count. |
| Fluid.Viscosity | noesis/src/pages/FluidDynamics.jsx:93-96 | Each preset's per-frame velocity factor damps: it lies strictly between 0 and 1. |
| Fluid.ViscosityOrder | noesis/src/pages/FluidDynamics.jsx:94-96 | Honey damps more than oil, and oil more than water. |
| Fluid.KernelRange | noesis/src/pages/FluidDynamics.jsx:128-130 | A density term is in (0, 1] inside the smoothing radius, 1 at distance zero, and 0 outside. |
| Fluid.CloseOnBothAxes | noesis/src/pages/FluidDynamics.jsx:126-128 | Within the smoothing radius the coordinates differ by less than a cell on each axis. |
| Fluid.DensityIsBruteForce | noesis/src/pages/FluidDynamics.jsx:168-184 | The density over the gathered neighbours equals the brute-force sum over all particles. |
| Fluid.Density | noesis/src/pages/FluidDynamics.jsx:120-135 | `calculateDensity` over the gathered neighbours is, with a genuine square root, the sum of the kernel over all particles, and lies between 1 and the particle count. |
| Fluid.DensityBounds | noesis/src/pages/FluidDynamics.jsx:120-135 | A particle counts itself with weight 1, so its density lies between 1 and the particle count. |
| Fluid.Pressure | noesis/src/pages/FluidDynamics.jsx:137-139 | Pressure is negative exactly below the target density 2.5 and zero exactly at it. The density is recovered as target + pressure/0.5. |
| Fluid.PressureIncreasing | noesis/src/pages/FluidDynamics.jsx:137-139 | Pressure is strictly increasing in density, in both directions. |
| Fluid.DensityPass | noesis/src/pages/FluidDynamics.jsx:168-184 | The density pass changes only each particle's density and pressure, both computed from the start-of-frame positions. |
| Fluid.DensityPassBounds | noesis/src/pages/FluidDynamics.jsx:168-184 | After the density pass every density is in [1, n] and every pressure is at least -0.75. |
| Fluid.Push | noesis/src/pages/FluidDynamics.jsx:198-211 | The particle itself, a coincident neighbour and a neighbour at 20 or more contribute no force. |
| Fluid.PushAntisymmetric | noesis/src/pages/FluidDynamics.jsx:205-210 | Two distinct particles push each other with opposite forces. |
| Fluid.IsolatedFeelsNothing | noesis/src/pages/FluidDynamics.jsx:205-211 | A particle with no other candidate strictly inside its radius feels no pressure force. |
| Fluid.Bounce | noesis/src/pages/FluidDynamics.jsx:227-243 | A wall hit pins the position at the wall and scales the velocity by -0.5. A position inside the walls is untouched, and on a canvas at least 6 wide the result is inside [3, size - 3]. |
| Fluid.BounceSettles | noesis/src/pages/FluidDynamics.jsx:227-243 | After a wall hit a second wall check does nothing. |
| Fluid.Integrate | noesis/src/pages/FluidDynamics.jsx:216-243 | Each velocity component gains a tenth of the force, then gravity on y, then the viscosity factor. The position advances by it and then goes through the wall step, ending inside the canvas. Density, pressure and preset are kept. |
| Fluid.RestIsStill | noesis/src/pages/FluidDynamics.jsx:216-225 | A resting particle away from the walls, with no force and no gravity, stays put. |
| Fluid.FreeMotionDamps | noesis/src/pages/FluidDynamics.jsx:216-225 | With no force and no gravity and away from the walls, each velocity component shrinks by exactly the viscosity factor. |
| Fluid.Move | noesis/src/pages/FluidDynamics.jsx:186-244 | Processing particle k in place changes it alone, integrated under the force computed on the current list. |
| Fluid.Moved | noesis/src/pages/FluidDynamics.jsx:186-244 | Part-way through the pass, the particles not yet processed are untouched and the processed ones are inside the canvas. |
| Fluid.MovedStays | noesis/src/pages/FluidDynamics.jsx:186-244 | Once processed, a particle stays put for the rest of the pass. |
| Fluid.SeesEarlierMoved | noesis/src/pages/FluidDynamics.jsx:186-215 | Particle k's force is computed on a list in which every earlier particle has already moved and every later one has not. |
| Fluid.LooksUpStartCell | noesis/src/pages/FluidDynamics.jsx:190-191 | When processed, particle k is still in the cell it was filed under at the start of the frame. |
| Fluid.Frame | noesis/src/pages/FluidDynamics.jsx:154-244 | A frame keeps the particle count and presets, and leaves every particle inside the canvas. |
| Fluid.Animate | noesis/src/pages/FluidDynamics.jsx:140-244 | With the left button held, three particles of the chosen preset are spawned before the frame. The old particles keep their presets, and every particle ends inside the canvas. |
| Fluid.FrameDensities | noesis/src/pages/FluidDynamics.jsx:168-184 | After a frame each particle carries its brute-force start-of-frame density, which is at least 1. |
| Fluid.Spawn | noesis/src/pages/FluidDynamics.jsx:89-118 | Spawning appends one particle per draw and keeps the old ones. Each new particle has zero density and pressure, the chosen preset, and a jitter of (draw - 0.5)·10 from the cursor. |
| Fluid.SpawnedNearCursor | noesis/src/pages/FluidDynamics.jsx:101-109 | For draws in [0, 1), a spawned particle lands within 5 px of the cursor on each axis with speed 2·draw, below 2. |
| Fluid.SpawnAfterReset | noesis/src/pages/FluidDynamics.jsx:323-330 | After a reset, spawning leaves exactly the new burst. |
| Fluid.Reset | noesis/src/pages/FluidDynamics.jsx:323-330 | Reset empties the particle list. |
| Cradle.InitBalls | noesis/src/pages/NewtonsCradle.jsx:48-68 | Initialisation gives n balls at rest. The first `pulled` are raised to the pull angle and the rest hang straight. Pivots are 52 px apart and centred on the canvas. |
| Cradle.Swing | noesis/src/pages/NewtonsCradle.jsx:81-85 | The semi-implicit step updates the angular velocity first, then advances the angle by the new one. Nothing else about the ball changes. |
| Cradle.HangingStaysStill | noesis/src/pages/NewtonsCradle.jsx:81-85 | A ball hanging still stays still. |
| Cradle.CoastsFreely | noesis/src/pages/NewtonsCradle.jsx:82-84 | Without gravity or damping the angular velocity is kept and the angle advances by it. |
| Cradle.SwingAll | noesis/src/pages/NewtonsCradle.jsx:81-85 | Every ball is swung before any pair is examined, and only angles and angular velocities change. |
| Cradle.LastMoving | noesis/src/pages/NewtonsCradle.jsx:109-114 | The scan stops at the first ball not at rest, or at the last ball. |
| Cradle.Transfer | noesis/src/pages/NewtonsCradle.jsx:108-125 | The last-moving ball takes ball i's angular velocity. Ball i and every ball in between come to rest at the bottom, and all others are untouched. |
| Cradle.ElasticConserves | noesis/src/pages/NewtonsCradle.jsx:127-134 | The elastic velocities conserve momentum and kinetic energy. |
| Cradle.ElasticSwapsEqualMasses | noesis/src/pages/NewtonsCradle.jsx:127-134 | With equal masses the two linear velocities are exchanged. |
| Cradle.Elastic | noesis/src/pages/NewtonsCradle.jsx:126-135 | The elastic branch changes only the pair's angular velocities, to the elastic linear velocities over each string length. |
| Cradle.Resolve | noesis/src/pages/NewtonsCradle.jsx:89-137 | A pair that is not touching and approaching is left alone. A colliding pair goes to the velocity transfer when the second ball is at rest, and to the elastic exchange otherwise. Balls before the pair never change. |
| Cradle.ResolveConserves | noesis/src/pages/NewtonsCradle.jsx:126-135 | When the elastic branch fires, the pair's momentum and kinetic energy are conserved. |
| Cradle.SweepFrom | noesis/src/pages/NewtonsCradle.jsx:89-138 | Pairs are resolved left to right in place: the rig is kept, and balls before the current pair are never touched again. |
| Cradle.Frame | noesis/src/pages/NewtonsCradle.jsx:76-138 | A frame changes only angles and angular velocities, so the balls stay well formed. |
| Cradle.EnergyNonNegative | noesis/src/pages/NewtonsCradle.jsx:151-157 | With non-negative gravity the displayed total energy is never negative. |
| Cradle.BallEnergy | noesis/src/pages/NewtonsCradle.jsx:152-157 | A ball's kinetic plus potential energy is never negative under non-negative gravity, and is zero for a ball hanging still. |
| Cradle.Energy | noesis/src/pages/NewtonsCradle.jsx:145-157 | The total energy sums the balls' shares. It is never negative under non-negative gravity and is zero when every ball hangs still. |
| Cradle.MaxAngle | noesis/src/pages/NewtonsCradle.jsx:159 | The statistic is non-negative, bounds every ball's absolute angle in degrees, and is 0 or one of them. |
| Pascal.Pressure | noesis/src/pages/PascalsLaw.jsx:19 | Pressure times the small piston's area is the applied force. |
| Pascal.OutputForce | noesis/src/pages/PascalsLaw.jsx:20 | The output force times A1 is the applied force times A2. |
| Pascal.Advantage | noesis/src/pages/PascalsLaw.jsx:21 | The mechanical advantage times A1 is A2. |
| Pascal.TransmittedUndiminished | noesis/src/pages/PascalsLaw.jsx:19-21 | F2/A2 equals F1/A1, and the output force is the advantage times the input force. |
| Pascal.MultipliesIffLarger | noesis/src/pages/PascalsLaw.jsx:19-21 | For a positive force, the output exceeds it exactly when A2 > A1, which is exactly when the advantage exceeds 1. |
| Pascal.Advance | noesis/src/pages/PascalsLaw.jsx:47-50 | A frame never takes progress past 50 and never lowers progress that is within the travel. |
| Pascal.Progress | noesis/src/pages/PascalsLaw.jsx:42-58 | Progress stays within [0, 50]. |
| Pascal.ProgressClosedForm | noesis/src/pages/PascalsLaw.jsx:42-50 | After k frames progress is 2k, capped at 50. |
| Pascal.TwentyFiveFrames | noesis/src/pages/PascalsLaw.jsx:46-63 | `animate` runs exactly 25 times, and only the 25th reaches the full travel. |
| Pascal.Shown | noesis/src/pages/PascalsLaw.jsx:58-59 | The small piston shows the progress. The volume the small piston displaces equals the volume the large one takes in. |
| Pascal.LargePistonMovesLess | noesis/src/pages/PascalsLaw.jsx:59 | With A2 > A1 the large piston moves less than the small one, but still moves. |
| Pascal.Reset | noesis/src/pages/PascalsLaw.jsx:69-76 | Reset stops the animation with both pistons at rest. |
| Magnetic.WireStrength | noesis/src/pages/MagneticField.jsx:177-181 | The strength is in [0, 0.5·|I|] and is 0 within a pixel of the wire. Beyond that, strength times distance is 0.5·|I|. |
| Magnetic.WireSymmetricAndFading | noesis/src/pages/MagneticField.jsx:177-181 | The strength ignores the current's sign and the side of the wire, and does not grow with distance from 1 px outward. |
| Magnetic.LoopStrength | noesis/src/pages/MagneticField.jsx:183-186 | The strength is in [0, 0.3·|I|] and is 0 within a pixel of the centre. Beyond that, strength times (r + 120) is 0.3·|I|·120. |
| Magnetic.LoopFades | noesis/src/pages/MagneticField.jsx:183-186 | With current flowing, the loop's strength stays strictly below 0.3·|I| and falls strictly as r grows. |
| Magnetic.SolenoidStrength | noesis/src/pages/MagneticField.jsx:163-169 | The solenoid's strength is 0.3·|I| or 0.1·|I|, never negative. |
| Magnetic.SolenoidStrongerInside | noesis/src/pages/MagneticField.jsx:163-169 | Inside the 300 x 100 box the strength is three times the strength outside. |
| Magnetic.Drawn | noesis/src/pages/MagneticField.jsx:189 | The drawn strength is at most 1 and at most the strength, and equals the strength up to 1. |
| Magnetic.CurrentOffDrawsNothing | noesis/src/pages/MagneticField.jsx:163-189 | With zero current every field point of every configuration is drawn with zero strength. |
| Magnetic.WireDirection | noesis/src/pages/MagneticField.jsx:67 | The direction is ±1, and it is +1 exactly when "current positive" agrees with "below the wire". |
| Magnetic.ZeroCurrentActsNegative | noesis/src/pages/MagneticField.jsx:256 | Zero current points like a negative current. Reversing a non-zero current reverses every direction. |
| Magnetic.Sign | noesis/src/pages/MagneticField.jsx:262 | The sign is ±1 and is +1 exactly for positive current. |
| Magnetic.FieldAt | noesis/src/pages/MagneticField.jsx:252-270 | The compass reads the wire's ±1 direction at y = 300, the loop's tangent around (400, 300), or the solenoid's vertical sign. |
| Magnetic.CompassIsUnit | noesis/src/pages/MagneticField.jsx:252-270 | Every compass direction is a unit vector. |
| Magnetic.LoopCompassIsTangent | noesis/src/pages/MagneticField.jsx:258-266 | Around the loop the needle is perpendicular to the offset from the centre, a quarter turn from outward, signed by the current. |
| Lens.SignedFocal | noesis/src/pages/LensSimulator.jsx:37 | The signed focal length is ±focalLength, positive exactly for a convex lens. |
| Lens.ImageDistance | noesis/src/pages/LensSimulator.jsx:77 | The image is at infinity exactly when the signed focal length equals the object distance. A finite image distance is never 0. |
| Lens.LensEquation | noesis/src/pages/LensSimulator.jsx:292 | A finite image distance satisfies 1/f = 1/do + 1/di, that is di·(do - f) = f·do. |
| Lens.Magnification | noesis/src/pages/LensSimulator.jsx:78 | The magnification is finite exactly when the image is, and times do it is -di. |
| Lens.ImageHeight | noesis/src/pages/LensSimulator.jsx:79 | The image height is finite exactly when the image is, and hi·do = -di·ho. |
| Lens.TypeOf | noesis/src/pages/LensSimulator.jsx:216 | Only a finite image can be virtual. The infinite one is labelled "Real". |
| Lens.Label | noesis/src/pages/LensSimulator.jsx:91-116 | A label is shown exactly when the image is drawn (finite and within 600 px), and it carries the panel's image type. |
| Lens.UprightIffVirtual | noesis/src/pages/LensSimulator.jsx:114-115 | For an object of positive height, a finite image is upright exactly when it is virtual. |
| Lens.DefaultImage | noesis/src/pages/LensSimulator.jsx:7-9 | The defaults, convex f = 150 with do = 300, give di = 300 and m = -1: real and inverted. |
| Lens.MagnifyingGlass | noesis/src/pages/LensSimulator.jsx:77-79 | Convex f = 150 with do = 100 gives di = -300 and m = 3: virtual and upright. |
| Lens.ConvexImage | noesis/src/pages/LensSimulator.jsx:77-78 | A converging lens images beyond f as real, and inside f as virtual and magnified. |
| Lens.ConcaveImage | noesis/src/pages/LensSimulator.jsx:77-79 | A diverging lens always gives a finite virtual image, diminished (0 < m < 1) and closer than f. For f up to 600 it is drawn as (Virtual, Upright). |
| Refraction.Index | noesis/src/pages/Refraction.jsx:12-17 | Every material's index is at least 1. |
| Refraction.DenserDownTheList | noesis/src/pages/Refraction.jsx:237-240 | The menu holds the four materials at distinct positions, and a material is further down the menu exactly when its index is higher. |
| Refraction.IncidentSine | noesis/src/pages/Refraction.jsx:222-223 | On the 0..89° slider the incident sine is non-negative, and positive away from 0°. |
| Refraction.SinRefracted | noesis/src/pages/Refraction.jsx:57-60 | n2·sinθ2 = n1·sinθ1. |
| Refraction.Refract | noesis/src/pages/Refraction.jsx:62-67 | The ray reflects totally exactly when sinθ2 > 1, strictly. Otherwise it refracts. |
| Refraction.ReflectsPastCriticalAngle | noesis/src/pages/Refraction.jsx:62 | Total internal reflection happens exactly when n1·sinθ1 > n2. |
| Refraction.Snell | noesis/src/pages/Refraction.jsx:65-66 | On the slider's range the refracted angle satisfies n2·sinθ2 = n1·sinθ1. |
| Refraction.NoReflectionIntoDenser | noesis/src/pages/Refraction.jsx:57-62 | Passing into an equal or denser material never reflects totally. |
| Refraction.StraightThrough | noesis/src/pages/Refraction.jsx:57-60 | Identical materials keep the sine, and a ray along the normal stays on it. |
| Refraction.BendsTowardNormal | noesis/src/pages/Refraction.jsx:290 | Entering a denser material at a slant, the sine shrinks but stays positive. |
| Prism.NormalDispersion | noesis/src/pages/Prism.jsx:12-20 | From red to violet the wavelength strictly falls and the index strictly rises, from 1.513 to 1.538, always above air's. |
| Prism.EntrySine | noesis/src/pages/Prism.jsx:154 | n·sinθ2 = sinθ1 at the entry face. |
| Prism.TraceRay | noesis/src/pages/Prism.jsx:136-188 | The trace stops early exactly when the entry sine exceeds 1 in magnitude. The exit segment exists exactly when the exit sine is within [-1, 1]. |
| Prism.EntryNeverBlocked | noesis/src/pages/Prism.jsx:155 | For every band the entry sine is below 1 in magnitude, so the early return never fires. |
| Prism.SnellAtBothFaces | noesis/src/pages/Prism.jsx:154-178 | Snell's law holds at the entry face, and at the exit face relative to its 30° normal. |
| Prism.VioletBendsMost | noesis/src/pages/Prism.jsx:154 | For a slanted ray, a band nearer violet has a strictly smaller entry sine. |
| Prism.Rays | noesis/src/pages/Prism.jsx:72-92 | One trace per band: at the chosen angle with the spectrum shown, head-on otherwise. |
| Prism.EveryBandEnters | noesis/src/pages/Prism.jsx:72-92 | Every band's ray enters the prism, whatever the settings. |
| Prism.NextOffset | noesis/src/pages/Prism.jsx:25 | The animation offset stays within [0, 360). |
| Prism.OffsetAfter | noesis/src/pages/Prism.jsx:24-26 | After any number of ticks the offset is within [0, 360). |
| Prism.OffsetClosedForm | noesis/src/pages/Prism.jsx:25 | After k ticks the offset is 2k mod 360. |
| Prism.OffsetPeriodic | noesis/src/pages/Prism.jsx:25 | The animation repeats every 180 ticks. |
| Electric.Contribution | noesis/src/pages/ElectricField.jsx:133-141 | A charge within 5 px contributes nothing. Beyond that its term times r³ is k·q times the offset. |
| Electric.Field | noesis/src/pages/ElectricField.jsx:127-142 | `calculateField` is zero for no charges and the charge's own term for one charge. Lists combine by `Superposition`. |
| Electric.InverseSquare | noesis/src/pages/ElectricField.jsx:138 | Beyond the guard a charge's term has the inverse-square magnitude k·|q|/r². |
| Electric.Superposition | noesis/src/pages/ElectricField.jsx:132-142 | The field of two lists together is the sum of their fields. |
| Electric.OrderIndependent | noesis/src/pages/ElectricField.jsx:132-142 | The field does not depend on the order of the charges. |
| Electric.ContributionFlips | noesis/src/pages/ElectricField.jsx:138-140 | Flipping one charge's sign flips its term. |
| Electric.NegatingFlipsField | noesis/src/pages/ElectricField.jsx:127-145 | Flipping every charge's sign flips the field. |
| Electric.FindGrabbed | noesis/src/pages/ElectricField.jsx:153-157 | The grab finds the first charge within 15 px, or nothing exactly when none is that close. |
| Electric.MouseDown | noesis/src/pages/ElectricField.jsx:147-168 | A press flags the grabbed charge and moves no charge. The probe follows the press only when the force arrow is shown. |
| Electric.MouseMove | noesis/src/pages/ElectricField.jsx:170-187 | Exactly the flagged charges jump to the pointer. The probe follows while the button is held with the force arrow shown. |
| Electric.MouseUp | noesis/src/pages/ElectricField.jsx:189-192 | Release clears every flag and moves nothing. |
| Electric.DragMovesOnlyGrabbed | noesis/src/pages/ElectricField.jsx:147-192 | A press, move and release relocates exactly the grabbed charge, or no charge when the press hit none. |
| Electric.AddCharge | noesis/src/pages/ElectricField.jsx:194-196 | Adding appends one unflagged charge at (400, 300) and keeps the others. |
| Electric.RemoveLast | noesis/src/pages/ElectricField.jsx:198-202 | Removal drops only the last charge, and does nothing to an empty list. |
| Electric.AddThenRemove | noesis/src/pages/ElectricField.jsx:194-202 | Removing undoes adding, and adding a charge adds exactly its own term to the field everywhere. |
| Electric.Reset | noesis/src/pages/ElectricField.jsx:204-210 | Reset restores the two default charges and the probe at (400, 200). |
| Electric.ResetProbeFieldIsHorizontal | noesis/src/pages/ElectricField.jsx:204-210 | At the reset probe the field is horizontal and points from the positive charge toward the negative one. |
| Faraday.Flux | noesis/src/pages/FaradaysLaw.jsx:38-42 | The flux lies in (0, 10] and is 10 exactly at the coil centre. |
| Faraday.FluxFallsWithDistance | noesis/src/pages/FaradaysLaw.jsx:39-41 | The flux depends only on the distance to the coil and falls strictly as that distance grows. |
| Faraday.Emf | noesis/src/pages/FaradaysLaw.jsx:44 | The EMF opposes the motion (Lenz), vanishes exactly at rest, and is half the speed in size. |
| Faraday.Current | noesis/src/pages/FaradaysLaw.jsx:44-46 | The current opposes the motion, vanishes exactly at rest, and 20·i = -v. |
| Faraday.Tick | noesis/src/pages/FaradaysLaw.jsx:19-36 | A held magnet is untouched. A free one keeps 0.95 of its velocity, ends on the track [50, 750], and moves exactly by velocity·dt·100 when that stays on the track. |
| Faraday.FreeMotionDecays | noesis/src/pages/FaradaysLaw.jsx:19-36 | While free, the magnet's speed never grows and after any tick it is on the track. |
| Faraday.MouseDown | noesis/src/pages/FaradaysLaw.jsx:183-193 | A press within 30 px grabs the magnet, recording its position and the time. Any other press changes nothing. |
| Faraday.MouseMove | noesis/src/pages/FaradaysLaw.jsx:195-213 | While held, the magnet follows the pointer within the track. The velocity becomes the pointer's travel over the elapsed time only when time has passed, and the unclamped pointer position is remembered. |
| Faraday.MouseUp | noesis/src/pages/FaradaysLaw.jsx:215-217 | Release lets go, keeping the position and velocity. |
| Faraday.Reset | noesis/src/pages/FaradaysLaw.jsx:219-224 | Reset puts the magnet at 200, at rest. |
| Faraday.Push | noesis/src/pages/FaradaysLaw.jsx:226-228 | A push sets the velocity to 200 in the given direction and moves nothing. |
| Faraday.ResetReadout | noesis/src/pages/FaradaysLaw.jsx:219-224 | After reset the derived EMF and current are 0, agreeing with the values reset writes, and the flux is below its peak. |
| Faraday.StaysOnTrack | noesis/src/pages/FaradaysLaw.jsx:19-228 | Whatever the user does, a magnet that starts on the track stays on it. |

## Left out

- Canvas drawing is not modelled: paths, gradients, arrows, labels' `toFixed` text, the field-arrow angles of MagneticField.jsx, the refraction arrowheads and reflected-ray end point, and the prism's segment coordinates. It produces pixels, not state.
- React state, effects, event-listener wiring, `requestAnimationFrame`, `setInterval` and `setTimeout` are not modelled as such. Each handler or timer body is a function, and a session is a sequence of them. Batching of several state updates in one event, stale closures (the fluid page's `isRunning`), and timers that are never cancelled are outside that view.
- Math.jsx's drawing effect reads names it never declares (`tools`, `tangentPoint`, `cursorPoint`, `selectedFunction`). Only its pure helpers are modelled.
- The mathjs parser and evaluator are abstract inputs. The implicit-curve and parametric-shape renderer of MathNew.jsx is not modelled beyond the prefix the circle shortcut must produce.
- Floating point is not modelled: all arithmetic is exact. IEEE rounding and the accuracy of sin, asin, sqrt, exp and atan2 are outside the model, as is any claim about energy drift in the cradle.
- `Math.random()` and `Date.now()` are parameters. Spawn draws are inputs assumed to lie in [0, 1) where a lemma needs that, and times are arbitrary reals.
- The page-level statistics computed only for display are not modelled: the fluid page's average velocity and frames per second, and the cradle's momentum text.
- The electric page's field-density slider only sets the arrow grid's step, which is drawing.
- Prism.jsx computes an average index `avgN` for the white beam and never uses it, so it is not modelled.
- Physics.jsx, Home.jsx, Header.jsx, GlitchText.jsx and App.jsx hold layout, navigation and random glitch timers, with no kernel.
- Magnetic.WireSymmetricAndFading: the strength is non-increasing only from one pixel outward. The source's cutoff returns 0 below one pixel and 0.5·|I| at exactly one, so no claim can span the cutoff.
- Magnetic.FieldAt: the compass uses the fixed wire height 300 and loop centre (400, 300), as the source does, while the drawing uses the canvas's centre. On a canvas other than 800 x 600 the two disagree.
- Calculus.CriticalPoints: requires a canvas of positive width. With width 0 the step is 0 and the source loop never ends, and the page's draw returns before calling it on such a canvas.
- Notation.PointRoundTrip: the round trip is stated for integer coordinates typed as `L = (a, b)`.
- Notation.ScanNumber: decimal fractions are scanned, but the value of a token with a fractional part is not pinned and no round trip is claimed for it.
- Notation.CircleShortcut, Notation.EllipseShortcut, Notation.HyperbolaShortcut: stated for arguments that are already trimmed, non-empty and free of the closing character. Other inputs are handled by `Notation.Rewrite` but no rewrite equation is claimed for them.
- Lens.TypeOf: an image at infinity is labelled "Real", as the panel's `Infinity < 0` test gives. The model keeps that label rather than calling the image undefined.
- Faraday.MouseMove: the remembered pointer position is the unclamped one, as in the source. A drag past a wall therefore makes the next velocity reading larger than the magnet's visible motion.
- Fluid.Frame: the force pass takes the pressure field as computed on the current, partly updated list. It is not the same as a simultaneous update of all particles, and no claim of that kind is made.
