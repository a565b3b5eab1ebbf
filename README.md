# Extruded text recoloured by a cyclic colour animation

A Dafny model of the two pieces of logic in a small three.js scene:

- **`TextMesh`** (`src/TextMesh.ts`, module `Meshes` in `text_mesh.dfy`): a scene node that shows one
  piece of extruded text. Its constructor fills every option from its own default and builds the
  geometry once. The `text` setter builds a new geometry from the new text and the node's fixed size,
  height, translation, rotation and scale, disposes of the old geometry and adopts the new one. The
  `color` setter only retints the material. Geometries are objects (`Geometry`) whose content is a
  value (`Shape`): the glyph source plus the transformations applied in place, recorded in order.
  Disposal is a flag on each geometry. A ghost set `owned` keeps every geometry the node's mesh has
  held, the placeholder `ShapeGeometry` included. The invariant `Valid()` says that exactly one of
  them is undisposed, that it is the current one, that it is the build of the current parameters,
  and that the placeholder has been replaced. A separate predicate, `Tinted()`, says that the
  material shows the stored colour. The source keeps it only when no colour option is given (see
  Findings), so the setters do not require it.
- **The colour animation** (`src/main.ts`, modules `ColorChain` in `color_chain.dfy` and `Scene` in
  `scene.dfy`): one tween per entry of the twelve-colour "deep tone" palette. Tween i runs from
  entry i to entry (i + 1) % 12 in 2000 ms and is chained to tween (i + 1) % 12; tween 0 is started.
  Each tick's value is fanned out: the colour display's text becomes the upper-cased hex of the
  value, both text nodes take the same brightened colour, and the background takes the value itself.
  The chain is an index-based circular list. `Follow(i, k, n)` is the segment reached after k links,
  and lemmas show that it is a single cycle of length N.

`Wrappers` (`wrappers.dfy`) holds the `Option` type used for options that may be left out.

## Model

| member | source | states |
|---|---|---|
| `Meshes.Resolve` | src/TextMesh.ts:43-49 | each omitted option takes its own default (text "", size 10, height 1, colour "#fff", translate and rotate (0,0,0), scale (1,1,1)); each supplied option decides its own field, even when it is "falsy" |
| `Meshes.ResolveWithoutOptions` | src/TextMesh.ts:40-49 | constructing with no options object gives the same parameters as an empty options object: all defaults |
| `Meshes.ResolveFieldsIndependent` | src/TextMesh.ts:43-49 | a resolved field depends only on the option of the same name |
| `Meshes.BuiltShapeDeterminesParams` | src/TextMesh.ts:80-89 | a built geometry records translate, rotate X/Y/Z, scale in that order; it determines every parameter it was built from, and it is never the placeholder |
| `Meshes.Geometry.Placeholder` | src/TextMesh.ts:30 | the mesh's first geometry is the default `ShapeGeometry` built without arguments, undisposed |
| `Meshes.Geometry.Text` | src/TextMesh.ts:80-84 | a new text geometry holds the glyphs of the text at the given font, size and height, untransformed and undisposed |
| `Meshes.Geometry.Translate` | src/TextMesh.ts:85 | appends a translation to the geometry's transformations; disposal unchanged |
| `Meshes.Geometry.RotateX` | src/TextMesh.ts:86 | appends a rotation about X; disposal unchanged |
| `Meshes.Geometry.RotateY` | src/TextMesh.ts:87 | appends a rotation about Y; disposal unchanged |
| `Meshes.Geometry.RotateZ` | src/TextMesh.ts:88 | appends a rotation about Z; disposal unchanged |
| `Meshes.Geometry.Scale` | src/TextMesh.ts:89 | appends a scaling; disposal unchanged |
| `Meshes.Geometry.Dispose` | src/TextMesh.ts:91 | marks the geometry disposed and leaves its content alone |
| `Meshes.Material.constructor` | src/TextMesh.ts:29 | a new material has its default (white) colour |
| `Meshes.Material.Set` | src/TextMesh.ts:73 | the material colour becomes the given colour |
| `Meshes.Mesh.constructor` | src/TextMesh.ts:30 | the mesh holds the placeholder geometry and the node's own material |
| `Meshes.TextMesh.OneLiveGeometry` | src/TextMesh.ts:91-92 | under the ownership invariant the set of undisposed geometries is exactly the current geometry |
| `Meshes.TextMesh.constructor` | src/TextMesh.ts:40-56 | after construction the parameters are the resolved options, the geometry is the build of them, the placeholder is disposed, the node owns only those two geometries, and the material shows the resolved colour, `Tinted()` (corrected; see Findings) |
| `Meshes.TextMesh.AsWritten` | src/TextMesh.ts:40-56 | the constructor as written: the same invariant and parameters, but the material keeps its default colour whatever colour was supplied, so the material shows the stored colour exactly when that colour is the default "#fff" |
| `Meshes.AsWrittenColorOptionUnshown` | src/TextMesh.ts:46 | a node built as written with colour "#f00" reports "#f00" while its material does not show it |
| `Meshes.TextMesh.SetText` | src/TextMesh.ts:62-65 | afterwards the text is the new value and every other parameter is unchanged; the geometry is a fresh build of the new parameters; the previous geometry is disposed; it stays the only live geometry; the material colour is untouched, so whether it shows the stored colour is unchanged |
| `Meshes.TextMesh.SetColor` | src/TextMesh.ts:71-74 | afterwards the colour and the material colour are the new value, so the material shows the stored colour; text, frozen parameters, owned geometries and the current geometry (identity and content) are unchanged |
| `Meshes.TextMesh.UpdateText` | src/TextMesh.ts:79-93 | builds, transforms in the fixed order, disposes of the old geometry and adopts the new one; the new geometry is fresh and equals the build of the current parameters, and no parameter changes |
| `Meshes.AssignTexts` | src/TextMesh.ts:62-92 | after any number of text assignments exactly one geometry is live and it is the current one; every geometry held before (the placeholder too) is disposed; only the text has changed, to the last value; whether the material shows the stored colour is unchanged |
| `ColorChain.DeepToneHasTwelveSegments` | src/main.ts:22-35 | the palette has 12 colours, so there are 12 segments, and the last segment wraps round to the first colour |
| `ColorChain.Successor` | src/main.ts:113 | the successor of segment i of n is always a valid index: i + 1, or 0 after the last |
| `ColorChain.Segments` | src/main.ts:94-96 | one segment per palette entry, each lasting 2000 ms |
| `ColorChain.SegmentsContinuous` | src/main.ts:94-96 | segment i runs from palette[i] to palette[(i + 1) % N], and its end colour is its successor's start colour |
| `ColorChain.Follow` | src/main.ts:112-115 | following chain links from a valid segment always lands on a valid segment |
| `ColorChain.FollowWithinTurn` | src/main.ts:112-115 | within one turn, k links from segment i lead to segment i + k, wrapping past the last segment to the first |
| `ColorChain.FollowCompose` | src/main.ts:112-115 | following a links and then b links is following a + b links |
| `ColorChain.FollowReturns` | src/main.ts:112-115 | following N links from any segment returns to it |
| `ColorChain.FollowNoEarlyReturn` | src/main.ts:112-115 | no walk of between 1 and N - 1 links returns to its start, so the cycle has length exactly N |
| `ColorChain.FollowReachesAll` | src/main.ts:112-115 | every segment is reached from every segment within N links |
| `ColorChain.FollowPeriodic` | src/main.ts:112-115 | the walk is periodic with period N, so it never reaches a terminal segment |
| `ColorChain.Tween.constructor` | src/main.ts:95-96 | a new tween has its start colour, end colour and duration, nothing chained and is not playing |
| `ColorChain.Tween.Chain` | src/main.ts:114 | chaining replaces the tween's chained list with the one given tween |
| `ColorChain.Tween.Start` | src/main.ts:118 | starting makes the tween play and leaves its chain alone |
| `ColorChain.CreateTweens` | src/main.ts:94-109 | one fresh, distinct, unchained, idle tween per palette entry, animating that entry's segment |
| `ColorChain.WireChain` | src/main.ts:112-115 | afterwards each tween i has exactly tween (i + 1) % N chained; nothing starts playing |
| `ColorChain.Animate` | src/main.ts:94-118 | the tweens animate the palette's segments, are wired into a cycle, and exactly tween 0 is playing |
| `ColorChain.WalkFollowsIndices` | src/main.ts:112-115 | on wired tweens, following the object links k times from tween i reaches tween Follow(i, k, N) |
| `ColorChain.WiredContinuous` | src/main.ts:95-114 | on tweens that animate the palette's segments and are wired, each tween ends on the start colour of the one tween chained after it |
| `ColorChain.WiredIsCycle` | src/main.ts:112-115 | on wired tweens every tween has exactly one successor, and N links lead back to it |
| `Scene.SceneNodeParameters` | src/main.ts:47-61 | the title keeps the default size, height and colour; the colour display starts with empty text, white, size 120 and height 5 |
| `Scene.Renderer.constructor` | src/main.ts:79 | a new renderer has a black clear colour |
| `Scene.Renderer.SetClearColor` | src/main.ts:107 | the clear colour becomes the given colour |
| `Scene.UpperCase` | src/main.ts:102 | upper-casing keeps the length, replaces each lower-case ASCII letter by its capital, keeps every other character and leaves no lower-case letter |
| `Scene.OnUpdate` | src/main.ts:98-108 | one tick: the colour display's text becomes the upper-cased hex of the value; both nodes get the same brightened colour in their stored colour and material; the background gets the unbrightened hex; only the colour display's geometry is rebuilt (the old one disposed); both nodes stay valid and disjoint, and both materials now show the stored colour |
| `Scene.SetUp` | src/main.ts:47-118 | the two nodes are built with the constructor as written from their options; they are valid and disjoint, and their materials show their colour because neither option object supplies one; the 12 tweens animate the deep-tone segments, are wired into a cycle, and only tween 0 plays |

## Left out

- Browser bootstrap: `window.onload`, the DOM element, appending the canvas and the resize handler. They are browser I/O.
- Font loading: the asynchronous font load is I/O. The font is an opaque value (`Font`) that the node only passes through.
- Camera, orbit controls, renderer setup and the render loop: rendering plumbing. The renderer is reduced to its clear colour. The loop's `delta` is computed but never used.
- Tween progress in time, the elastic in-out easing and the library's update step: these are library internals and floating-point maths. The model keeps only segment endpoints, durations, the chain links and which tween is playing. The registration of the tick callback is also left out; `Scene.OnUpdate` is that callback.
- `hex` and `brighten` from the colour library: floating-point colour maths. They are parameters of `Scene.OnUpdate`. The brightening amount 3.0 is the constant `BrightenAmount`.
- `Scene.UpperCase` covers ASCII only. JavaScript's `toUpperCase` follows Unicode, but a hex string is ASCII.
- Glyph generation and the matrix maths of translate, rotate and scale: library code and floating point. A geometry records its source and its transformation steps instead.
- Floating-point numbers are modelled as `real`. `DEGREE_90` (pi / 180 * 90) is the decimal literal of its double value, since pi is not a Dafny real.
- Aliasing of option objects: the source stores the caller's vector objects (and a colour object, when one is given) by reference, and each rebuild reads their components again. A caller that changes such an object after construction therefore changes the next geometry. The model copies them as values (`Vector3`, `ColorRep`). So "size, height, translation, rotation and scale never change after construction" holds unconditionally in `Meshes.TextMesh.SetText`, `Meshes.TextMesh.SetColor` and `Meshes.AssignTexts`. In the source it holds only for callers that keep no reference, as the scene's inline vectors do.
- Colour parsing by the material (`Color.set`): a material tint records the colour representation it was given. The default white shows "#fff".
- Scene-graph `add` and the node's inheritance from the library's 3D object: library calls with no logic here.
- `ColorChain.Tween.constructor`: it stands for `new Tween(from).to(to, duration)`. The easing and the callback registration are not modelled.
- `ColorChain.Animate`: requires a non-empty palette. The source indexes tween 0 without a check and would throw on an empty palette. The palette is a constant with 12 entries.
- Parameter validation: the code checks neither the size nor the transform components, and the model does not either. A non-positive size is passed to the glyph generator as it is.

## Findings

| source | as written | input that shows it | evidently intended | confidence | as-written member | corrected member |
|---|---|---|---|---|---|---|
| src/TextMesh.ts:46 | the constructor stores the `color` option in `_color`, but only the `color` setter applies a colour to the material, which starts white | `new TextMesh(font, { color: "#f00" })`: the `color` getter returns "#f00" while the text is drawn white | the supplied colour is applied to the material at construction, as the setter does | medium; not executed | `Meshes.AsWrittenColorOptionUnshown` | `Meshes.TextMesh.constructor` |
