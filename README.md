# Explorador Espacial — a Dafny model of its state and display logic

The repository is a small interactive 3D showcase ("Explorador Espacial").
A loading screen counts from 0 % to 100 % through five phase labels and then
reveals the scene. The scene holds five clickable spaceships. Each ship
highlights, grows and shows its name while the pointer is over it. Clicking
a ship opens a detail panel with its title, two badges, description, spec
grid and history. The panel's close button dismisses it.

This project models the logic behind that, with no rendering:

- `catalog.dfy` (module `Catalog`): the `SpaceshipRecord` value and the five-entry
  catalog `Ships`, with its uniqueness, scale and spec-key facts.
- `spaceship_scene.dfy` (module `Scene`): the per-ship hover flag and pointer
  events, the hover-dependent look (scale, material colours, name tag), the
  class `Spaceship` (hover flag, hover-spin frame count, click), and `Mount`,
  which creates one object per catalog entry.
- `spaceship_info.dfy` (module `SpaceshipInfo`): the label humaniser
  `key.replace(/([A-Z])/g, " $1").trim()`, modelled as `InsertSpaces` followed
  by `Trim`. Also the spec grid, the panel, and which controls have a handler.
- `loading_screen.dfy` (module `Loading`): the tick function on `LoadState`
  and the class `LoadingScreen`. The class's interval callback and cleanup
  are proved against that function. Lemmas give the invariant, the
  closed form of the run and the 50-tick completion.
- `page.dfy` (module `Explorer`): the page state (`selectedSpaceship`,
  `isLoading`), its three callbacks as events, the rendered view, and the class
  `SpaceExplorer`. Two end-to-end methods: start-up (`Startup`) and clicking
  the second ship (`ClickSecondShip`).
- `wrappers.dfy` (module `Wrappers`): `Option`, standing for the nullable selection and the optional label.

Timers become discrete steps. One call of `LoadingScreen.OnInterval` is one
firing of the 50 ms interval. Scheduling `setTimeout(onComplete, 500)` is
counted in `completionsScheduled`. The page's `CompleteLoading` is the callback
firing. Coordinates and scales are exact `real`s.

## Model

| member | source | states |
|---|---|---|
| `Catalog.CatalogShape` | components/spaceship-scene.tsx:108-199 | the catalog has exactly five entries, with ids 1..5 in order; the entry with id 2 is "Crucero de Batalla" |
| `Catalog.CatalogUnique` | components/spaceship-scene.tsx:108-199 | ids are pairwise distinct and names are pairwise distinct |
| `Catalog.CatalogScalesPositive` | components/spaceship-scene.tsx:108-199 | every catalog scale is positive |
| `Catalog.CatalogSpecKeys` | components/spaceship-scene.tsx:116-121 | every entry's specs have exactly the keys velocidad, armamento, tripulación, alcance, in that order |
| `Catalog.Keys` | components/spaceship-scene.tsx:116-121 | the key list of a spec list has one key per entry, in entry order |
| `Scene.Appearance` | components/spaceship-scene.tsx:38-98 | hovered: scale × 1.2, body and wings "#10b981", engines "#ff4444", name tag with the record's name; not hovered: base scale, body and wings in the record colour, engines "#666666", no glow, no tag; with a positive scale, the object is larger exactly when hovered |
| `Scene.HoverIdempotent` | components/spaceship-scene.tsx:39-40 | repeating a pointer-over or pointer-out has no further effect |
| `Scene.HoverAfterLast` | components/spaceship-scene.tsx:19-40 | after any sequence of pointer events the object is hovered iff the last event was pointer-over; with no events it is as it was |
| `Scene.HighlightIgnoresColour` | components/spaceship-scene.tsx:47-87 | the highlighted look does not depend on the record's own colour |
| `Scene.LeaveRestores` | components/spaceship-scene.tsx:38-98 | entering and then leaving restores exactly the resting look |
| `Scene.Spaceship.constructor` | components/spaceship-scene.tsx:17-19 | a new object carries its record and starts unhovered with no spin |
| `Scene.Spaceship.PointerOver` | components/spaceship-scene.tsx:39 | pointer-over sets the hover flag and changes nothing else; the object then shows the highlighted look |
| `Scene.Spaceship.PointerOut` | components/spaceship-scene.tsx:40 | pointer-out clears the hover flag and changes nothing else; the object then shows the resting look |
| `Scene.Spaceship.Frame` | components/spaceship-scene.tsx:21-31 | a frame advances the spin count by one exactly while hovered and leaves the hover flag alone |
| `Scene.Spaceship.Click` | components/spaceship-scene.tsx:41 | a click hands the object's full record to the selection callback, whatever the hover state |
| `Scene.Mount` | components/spaceship-scene.tsx:201-215 | one fresh, distinct, unhovered object per catalog entry, in catalog order, each carrying its entry |
| `SpaceshipInfo.InsertSpacesLength` | components/spaceship-info.tsx:50 | the insertion step lengthens the key by exactly its number of ASCII capitals |
| `SpaceshipInfo.InsertSpacesAt` | components/spaceship-info.tsx:50 | each key character appears at its index plus the number of capitals up to it, and a capital is immediately preceded by an inserted space |
| `SpaceshipInfo.LandingGap` | components/spaceship-info.tsx:50 | consecutive key characters land one apart, or two apart when the later one is a capital, so nothing but those spaces is inserted |
| `SpaceshipInfo.InsertSpacesAppend` | components/spaceship-info.tsx:50 | the global replacement works character by character: it distributes over concatenation |
| `SpaceshipInfo.NoCapitalsUnchanged` | components/spaceship-info.tsx:50 | a key with no A–Z is left as it is by the insertion step, accented letters included |
| `SpaceshipInfo.InsertSpacesFirst` | components/spaceship-info.tsx:50 | the inserted form starts with the key's first character, or with a space and then it when that character is a capital |
| `SpaceshipInfo.InsertSpacesLast` | components/spaceship-info.tsx:50 | the inserted form ends with the key's last character |
| `SpaceshipInfo.TrimStartDrops` | components/spaceship-info.tsx:50 | trimming the start drops the longest prefix of whitespace and line terminators and keeps the rest |
| `SpaceshipInfo.TrimEndDrops` | components/spaceship-info.tsx:50 | trimming the end drops the longest suffix of whitespace and line terminators and keeps the rest |
| `SpaceshipInfo.TrimEnds` | components/spaceship-info.tsx:50 | a trimmed string has no whitespace or line terminator at either end |
| `SpaceshipInfo.TrimKeepsMiddle` | components/spaceship-info.tsx:50 | trim returns the contiguous middle between a removable prefix and a removable suffix |
| `SpaceshipInfo.TrimKeepsTrimmed` | components/spaceship-info.tsx:50 | trim leaves a string with no removable character at either end unchanged |
| `SpaceshipInfo.HumanizeEnds` | components/spaceship-info.tsx:50 | a humanised label has no leading or trailing whitespace |
| `SpaceshipInfo.HumanizeKey` | components/spaceship-info.tsx:50 | for a key without whitespace, the label is the inserted form minus the one space put before a leading capital |
| `SpaceshipInfo.LeadingCapital` | components/spaceship-info.tsx:50 | any key starting with an ASCII capital, whatever follows, gets no leading space: its label starts with that capital |
| `SpaceshipInfo.PlainKey` | components/spaceship-info.tsx:50 | a key with no ASCII capitals and no whitespace or line terminator at either end (inner spaces allowed) is its own label string |
| `SpaceshipInfo.HumanizePlainKey` | components/spaceship-info.tsx:50 | the label strings for "velocidad" and "tripulación" are the keys themselves |
| `SpaceshipInfo.CamelCaseLabel` | components/spaceship-info.tsx:50 | the label string of a camelCase key (lower-case first word, then capitalised words) is its words separated by single spaces |
| `SpaceshipInfo.InsertSpacesWords` | components/spaceship-info.tsx:50 | capitalised words written together become the same words each preceded by a space |
| `SpaceshipInfo.HumanizeCamelCase` | components/spaceship-info.tsx:50 | the label string for "topSpeed" is "top Speed" |
| `SpaceshipInfo.HumanizeTwoCapitals` | components/spaceship-info.tsx:50 | the label string for "maxWarpSpeed" is "max Warp Speed" |
| `SpaceshipInfo.SpecRows` | components/spaceship-info.tsx:47-54 | the spec grid has exactly one row per spec entry, in entry order, pairing the humanised key with the value; empty specs give an empty grid |
| `SpaceshipInfo.Render` | components/spaceship-info.tsx:24-71 | the panel shows the record's name, description and history, the fixed badges, the spec grid of its specs, and the close and two action controls |
| `SpaceshipInfo.BadgesFixed` | components/spaceship-info.tsx:27-32 | the badges are "Nave Espacial" and "Activa" for every record |
| `SpaceshipInfo.InvokesClose` | components/spaceship-info.tsx:17-18 | a control invokes onClose iff it is the close button; the two action buttons (lines 66-71) have no handler |
| `Loading.InitialValid` | components/loading-screen.tsx:10-11 | the screen starts at 0 % with "Inicializando sistemas...", and that state satisfies the invariant |
| `Loading.TickPreservesValid` | components/loading-screen.tsx:22-37 | a tick keeps the invariant: progress even and within [0, 100], label equal to the phase of the progress, timer stopped at 100, completion scheduled once exactly at 100 |
| `Loading.DisposePreservesValid` | components/loading-screen.tsx:39 | clearing the interval on unmount keeps the invariant |
| `Loading.TickMonotone` | components/loading-screen.tsx:24-34 | a tick never lowers progress and never takes it above 100 |
| `Loading.TickAddsTwo` | components/loading-screen.tsx:24 | before completion a tick adds exactly 2 |
| `Loading.TickText` | components/loading-screen.tsx:25-28 | after a running tick the label is `texts[newProgress / 20]` when that index is below 5, and is unchanged otherwise |
| `Loading.TextIsAPhase` | components/loading-screen.tsx:14-20 | the label is always one of the five phase labels |
| `Loading.TicksFromInitial` | components/loading-screen.tsx:22-37 | after n ticks from the start, progress is 2n with the phase label of 2n and the timer running while n < 50; from n = 50 on, progress is 100, the label is the last phase, the timer is stopped and completion was scheduled once |
| `Loading.StoppedStaysPut` | components/loading-screen.tsx:31 | once the interval is cleared, further ticks change nothing |
| `Loading.CompletesAfterFiftyTicks` | components/loading-screen.tsx:30-34 | progress reaches 100 exactly at 50 ticks; the timer runs iff fewer than 50 ticks happened; completion is scheduled 0 times before that and exactly once from then on |
| `Loading.StrictlyIncreasing` | components/loading-screen.tsx:24 | progress strictly increases over the first 50 ticks |
| `Loading.ReachableValid` | components/loading-screen.tsx:10-37 | every state reached from the start satisfies the invariant |
| `Loading.NoWriteAfterDispose` | components/loading-screen.tsx:39 | after unmounting, no later tick writes to the state |
| `Loading.LoadingScreen.constructor` | components/loading-screen.tsx:10-11 | a mounted screen is in the initial state |
| `Loading.LoadingScreen.OnInterval` | components/loading-screen.tsx:22-37 | the interval callback moves the state by one tick, keeps the invariant, and reports whether it scheduled completion |
| `Loading.LoadingScreen.Unmount` | components/loading-screen.tsx:39 | the effect cleanup clears the interval and changes nothing else |
| `Explorer.View` | app/page.tsx:17-56 | the loading screen is shown iff `isLoading`; the detail panel is shown iff a ship is selected, and it is that ship's panel with that ship's name as title |
| `Explorer.InitialState` | app/page.tsx:11-12 | the page starts with no selection and loading, showing the loading screen and no panel |
| `Explorer.SelectAndClose` | app/page.tsx:32-56 | a second selection replaces the first directly with no intermediate empty state; closing clears the selection whatever was shown |
| `Explorer.TransitionsIndependent` | app/page.tsx:11-56 | selection events never change `isLoading`, and completion never changes the selection |
| `Explorer.RunSelection` | app/page.tsx:32-56 | after any sequence of events the selection is the one the latest select or close left |
| `Explorer.RunLoading` | app/page.tsx:12-17 | after any sequence of events the page is loading iff it was loading and no completion happened: nothing sets the flag back to true |
| `Explorer.SpaceExplorer.constructor` | app/page.tsx:11-12 | the page component starts in the initial state |
| `Explorer.SpaceExplorer.Select` | app/page.tsx:32 | the scene's selection callback overwrites the selection and leaves `isLoading` alone |
| `Explorer.SpaceExplorer.Close` | app/page.tsx:56 | the panel's onClose clears the selection and leaves `isLoading` alone |
| `Explorer.SpaceExplorer.CompleteLoading` | app/page.tsx:17 | the loading screen's onComplete clears `isLoading` and leaves the selection alone |
| `Explorer.SpaceExplorer.Press` | components/spaceship-info.tsx:17-18 | pressing the close control closes the panel; the action buttons change nothing |
| `Explorer.Startup` | components/loading-screen.tsx:22-37 | the loading screen's interval fires exactly 50 times before completion; completion then hides the loading screen |
| `Explorer.ClickSecondShip` | components/spaceship-scene.tsx:128-139 | clicking the ship with id 2 opens a panel titled "Crucero de Batalla" with exactly four spec rows |

## Left out

- 3D rendering: the canvas, lights, star field, environment, orbit controls, meshes and their geometry, and the camera. These are calls into the rendering library.
- The floating bob (`Math.sin(elapsedTime + x) * 0.2`) is floating-point trigonometry and is not modelled.
- The hover spin adds 0.01 radians per frame as a float. The model counts hovered frames instead (`Spaceship.spinFrames`).
- The decorative background stars (`Math.random`, `Math.sin` placement) are left out.
- CSS classes, layout and styling strings are left out.
- Humanize: gives the label string before styling. The label element carries the CSS class `capitalize` (components/spaceship-info.tsx:49), so the browser shows each word with an upper-case first letter ("Velocidad", "Top Speed"); that display transform is not modelled.
- Real time is not modelled: the 50 ms period and the 500 ms completion delay are discrete steps.
- React effect re-runs when the `onComplete` identity changes are not modelled.
- Each state updater is assumed to run exactly once per interval firing. Development-mode double invocation of updaters is not modelled.
- Scaling uses exact reals. The floating-point rounding of `scale * 1.2` in the source (for example 1.5 × 1.2) is not modelled.
- `Spaceship` receives position, rotation, scale and colour as separate props, always equal to the fields of its `data` record. The model derives them from the record.
- `Object.entries` order is taken as the written key order. This holds for the catalog, whose keys are not integer-like; the reordering of integer-like keys is not modelled.
- The second hull style (rocket-shaped geometry) is not part of this model. It changes only geometry, not data or state.
- The component's own emissive intensities are part of `Appearance`. Its metalness, roughness, opacity and text styling are constants of the rendering and are left out.
