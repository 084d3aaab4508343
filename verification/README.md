# What the shell promises, in Dafny

Kestrel keeps caches, queues and event-driven state machines in C, and writes its art's PNG files by hand in TypeScript.
This project models those parts and proves what they are for: that a cached picture of what lies behind blurred glass
never goes stale unnoticed, that every request is answered once, that a file reads back as what was drawn.

## How it is laid out

Every component has its state and steps as plain values, with lemmas about whole runs of them. Where the original
updates fields or arrays in place, a class or a method on arrays does the same and its contract equates it with the
function on values, so that what is proved of the function holds of the object.

- **Blurred glass.** `Regions` are finite sets of pixels. `Spread` is one surface's turn at a view's redraw clip,
  `ClipFilters` runs the turns of all surfaces and filtered desktop layers until none asks for more, `Captures` is the
  texture and one paint of it, and `BackdropHistory` puts all of it together over any number of views and frames.
  `BackdropObjects` are the objects, where `repainted` is a reference to the live clip and grows with it.
  `Fingerprints` and `BackdropBehind` are how a surface notices what changed behind it.
- **Apps.** `WindowOrder` sorts windows, `Apps` is one app's state machine, `AppSystem` all apps over any run,
  `AppObjects` the objects. `AppIndex` picks the app for a window class or a Steam game, `AppCache` is the debounced
  reload, `UnitNames` the names of the scopes apps run in.
- **Requests and input.** `PolkitAgent`, `NetworkAgent` and `KeyringSave` are answered exactly once; `ModifierChord`
  tells when modifier keys are held together with nothing else.
- **Art.** `Words` and `Crc` are the chunk checksum of PNG (ISO/IEC 15948, section 5.5), which `CrcRemainder` ties to
  polynomial division; `Png` are the chunks (section 5.3) of both encoders and their reader, `PngFiles` whole files
  (filter type 0 of section 9.2), `Grids` cells in a row-by-row grid, `SpriteSheets` the pixel art, `Pictures` and
  `PictureSheets` premultiplied colour and its sheets.
- `Options` and `Lists` hold what several of them share.

What is nondeterministic in the original is an argument or an event: what looks behind a surface, whether a texture can be
allocated or copied to, what a search finds, when a timer runs, which requests are cancelled. A run is a list of events,
and an `Allowed` predicate says what the outside guarantees, such as that a cancelled task reports only that.

## What turned out not to hold

Each of these has a lemma with an input that shows it, and where the property holds is proved exactly.

- A backdrop's trusted pixels may lie outside the area that is looked behind, when the actor's own clip shrinks: the
  geometry leaves that clip out (`kestrel/engine/src/shell-blur-effect.c:597-625`) and the looked-at area keeps to it
  (`kestrel/engine/src/shell-backdrop-spread.c:37-46`). While the surface stays where it is, a change there goes by
  unnoticed (`BackdropHistory.UnattendedGoesStale`, exactly: `BackdropHistory.KeepsUpWhenAttended`).
- All views share what a surface keeps of the scene behind it, and every look replaces where things were
  (`kestrel/engine/src/shell-backdrop-behind.c:185-188`). So a view that looks second isn't told of what has left its
  glass for where no view shows it (`BackdropBehind.AnActorLeaves`, exactly:
  `BackdropBehind.SecondLookMissesDepartures`). What is damaged is taken to be the same for both looks.
- Whether a surface hears of another that refreshes under it depends on the order of the filters
  (`ClipFilters.OrderDecidesWhetherGlassIsHeard`, and in the end: `ClipFilters.HeardInTheEnd`).
- Window times exactly half the 32-bit clock apart compare rightly one way around and wrongly the other
  (`WindowOrder.FarTimesSortWrongly`, exactly: `WindowOrder.ComparesRightlyWhileNear`).
- A window that changes its own workspace or visibility, as one that is hidden, does not mark the order stale
  (`AppSystem.HidingIsNotNoticed`, exactly: `AppSystem.OrderedUnlessMisplaced` and `WindowOrder.SortedWhileItFits`).
- Disposing of an app that is starting trips an assertion (`AppSystem.DisposeAbortsWhileStarting`).
- A missed key release may leave a chord active with nothing held (`ModifierChord.MissedReleasesLeaveItActive`, exactly:
  `ModifierChord.SoundUnlessLeftBehind`).
- The two PNG encoders differ for a payload of 2^32 bytes or more, which one refuses and the other writes with a length
  modulo 2^32 (`Png.FrameTwice`); an RGBA buffer of another length than the size asks for does not read back
  (`PngFiles.DecodeUndoesEncode`).

## Model

| member | source | states |
|---|---|---|
| `Regions.GrownRectIsReach` | kestrel/engine/src/shell-backdrop-spread.c:203-212 | a rectangle widened by a margin has exactly the pixels within that reach of one of its own |
| `Regions.GrowRectangles` | kestrel/engine/src/shell-desktop-filter-effect.c:209-231 | growing a region rectangle by rectangle gives exactly the area's pixels within reach of the region, however it is cut into rectangles |
| `Spread.RingWidth` | kestrel/engine/src/shell-backdrop-spread.c:201 | the ring is the least whole number of pixels that covers the reach, and at least one |
| `Spread.TurnKeeps` | kestrel/engine/src/shell-backdrop-spread.c:223-250 | every turn keeps the surface's invariant, only adds pixels of its own area, answers TRUE exactly when it strictly grew the clip, and is closed when it answers FALSE |
| `Spread.TurnRemembers` | kestrel/engine/src/shell-backdrop-spread.c:134-160 | only the first turn of a frame decides what was glimpsed and told; it uses up what other views noticed |
| `Spread.LookIsWatched` | kestrel/engine/src/shell-backdrop-spread.c:134-178 | after a look, `changed` holds exactly if a told change had something to show in, or the clip grew inside the area since |
| `Spread.LookLeavesTheRing` | kestrel/engine/src/shell-backdrop-spread.c:162-178 | growth that the surface's own ring made is never looked at as a change |
| `Spread.ReachKeeps` | kestrel/engine/src/shell-backdrop-spread.c:180-221 | spreading from what was not spread from yet leaves all of the clip inside the area spread, and the ring of everything spread from inside the clip |
| `Spread.KeptWhenClipGrows` | kestrel/engine/src/shell-backdrop-spread.c:145-148 | whatever other filters add to the clip between turns, what the surface keeps still holds |
| `Spread.EverythingInReachIsRepainted` | kestrel/engine/src/shell-backdrop-spread.c:180-221 | once a changed surface asks for no more, every pixel of its area within reach of a clip pixel that is not its own ring is in the clip |
| `Spread.ToldIsNoticed` | kestrel/engine/src/shell-backdrop-spread.c:154-178 | a closed surface is marked changed exactly when it was told and has any of the clip, or the clip came to hold more of its area than it first saw and added itself |
| `Spread.AloneItGrowsOnce` | kestrel/engine/src/shell-backdrop-spread.c:180-221 | with no other filter, a changed surface grows the clip by exactly its ring and the second turn adds nothing |
| `ClipFilters.ApplyTakesRoom` | kestrel/engine/src/shell-desktop-filter-effect.c:233-255 | a filter that answers TRUE uses up free view pixels or its layer's one growth of the frame; one that answers FALSE changed nothing and has settled |
| `ClipFilters.RunRound` | kestrel/compositor/patches/0043-stage-let-the-shell-grow-redraw-clips.patch:66-79 | one round over all filters takes their turns in order, each on what those before it left, keeps every invariant, and if none grew the clip all have settled on it |
| `ClipFilters.ApplyRedrawClipFilters` | kestrel/compositor/patches/0043-stage-let-the-shell-grow-redraw-clips.patch:66-79 | running rounds until none answers TRUE ends, for any number of surfaces and layers; every shown surface is then closed over the final clip, every layer that repaints has carried at least the first clip as far as it reaches, and every surface that was to look was told exactly what the scene, other views and other glass said as they stood at its own turn of the first round |
| `ClipFilters.FirstTurnIsTold` | kestrel/engine/src/shell-backdrop-spread.c:109-160 | a surface's first turn is told of a change if and only if the scene reports one, another view marked it, or another surface that changed has spread to a pixel of the clip inside its area |
| `ClipFilters.ToldAtItsFirstTurn` | kestrel/engine/src/shell-backdrop-spread.c:223-250 | however many rounds follow, by whatever filters, what a surface was told and glimpsed is what it was at its own turn of the first round |
| `ClipFilters.RefreshedInTheEnd` | kestrel/engine/src/shell-backdrop-spread.c:109-250 | when all are done a surface has refreshed if and only if it was told at that turn and has any of the clip, or more of the clip got to it than it glimpsed and added; then all of it within reach of a clip pixel that is not its own ring is repainted |
| `ClipFilters.LayerCarriesOnce` | kestrel/engine/src/shell-desktop-filter-effect.c:209-255 | a filtered layer grows the clip once in a frame, by exactly the view's pixels within its margins of a clip pixel |
| `ClipFilters.OnlyTheFirstLookHears` | kestrel/engine/src/shell-backdrop-spread.c:154-159 | what other glass does matters to a surface's first look of a frame and to no later one |
| `ClipFilters.OrderDecidesWhetherGlassIsHeard` | kestrel/engine/src/shell-backdrop-spread.c:109-132 | of two overlapping surfaces of which the second is told of a change, the first is refreshed too if it comes after; if it comes before it is not, and is settled like that exactly if what the second's blur reaches of the second's area from the clip brings nothing new into the first's area |
| `ClipFilters.HeardInTheEnd` | kestrel/engine/src/shell-backdrop-spread.c:109-178 | among any filters that are done, a shown surface under which another has refreshed is refreshed too, unless it was not told on its first look and the clip gained nothing inside it since but its own ring |
| `Captures.UnchangedMeansUntouched` | kestrel/engine/src/shell-backdrop.c:278-353 | a capture that answers changed = FALSE has left texture, geometry, shown area and valid pixels as they were |
| `Captures.CapturedTwiceIsUnchanged` | kestrel/engine/src/shell-backdrop.c:320-350 | capturing again in the same frame, with nothing changed behind, answers changed = FALSE |
| `Captures.CompleteOrQueued` | kestrel/engine/src/shell-backdrop.c:320-352 | a capture that keeps a texture queues another redraw exactly when a visible pixel is not valid, which a copied paint of all visible pixels never leaves |
| `Captures.CapacityStaysClose` | kestrel/engine/src/shell-backdrop.c:118-133 | the capacity chosen for a size fits it, and any capacity that fits is between the size and the size plus 127 |
| `Captures.CapacityIsWholeSteps` | kestrel/engine/src/shell-backdrop.c:118-133 | a new texture's side is the least multiple of 64 that holds the size, but no more than the framebuffer's unless the size is |
| `Captures.EnsuredIsSized` | kestrel/engine/src/shell-backdrop.c:194-228 | after making sure of a backdrop its geometry is the one asked for and a kept texture has room for it and at most 127 more each way |
| `Captures.EnsuredStartsOver` | kestrel/engine/src/shell-backdrop.c:194-228 | the backdrop is left as it was, or has the new geometry, an all-clear texture, no valid pixel and no shown area; it has no texture exactly if the old one does not fit and none can be had |
| `Captures.CapturedIsSized` | kestrel/engine/src/shell-backdrop.c:278-353 | every capture keeps that room |
| `Captures.SmallShrinkKeepsTheTexture` | kestrel/engine/src/shell-backdrop.c:118-133 | a surface that shrinks by up to 64 pixels keeps its texture, whatever the framebuffer's limit |
| `Captures.LargeShrinkReallocates` | kestrel/engine/src/shell-backdrop.c:118-133 | one that shrinks by 128 gets another |
| `Captures.Visible` | kestrel/engine/src/shell-backdrop.c:303-318 | a pixel is visible exactly if it is in the geometry, in the framebuffer and within the edges of the actor's clip, if it has one, wherever those lie |
| `Captures.ShownIsVisible` | kestrel/engine/src/shell-backdrop.c:230-249 | after a capture that keeps a texture the shown area is exactly the pixels in the geometry, the framebuffer and the actor's clip, or what it was for that geometry if there are none, and it never moves without changed = TRUE |
| `Captures.StageOfView` | kestrel/engine/src/shell-backdrop.c:251-276 | a framebuffer of a view's size shows exactly the view's part of the stage, each unit in a square of as many pixels a side as the scale |
| `BackdropHistory.CaptureShows` | kestrel/engine/src/shell-backdrop.c:320-350 | if a backdrop's valid pixels were right but for some in doubt, a capture leaves them right but for those in doubt that it could not take afresh, also when allocation or copying fails |
| `BackdropHistory.PendingIsNoticed` | kestrel/engine/src/shell-backdrop-spread.c:134-178 | a change of a trusted pixel that is looked behind marks the frame as changed, if the look reports it or another view noticed it |
| `BackdropHistory.TakenAnewShows` | kestrel/engine/src/shell-backdrop.c:194-228 | a surface that moved or changed its size, or whose texture no longer fits, trusts only what is now behind it after the frame, whatever was looked behind |
| `BackdropHistory.FrameShowsWhatIsThere` | kestrel/engine/src/shell-backdrop.c:278-353 | after a frame every pixel in `valid` lies in the geometry and holds exactly what is now behind the actor, if all that was trusted before is looked behind or the surface is drawn with another geometry or texture |
| `BackdropHistory.OthersAreTold` | kestrel/engine/src/shell-backdrop.c:103-116 | whatever a look answers, every other view has been told or is still owed exactly what it was, and its promise holds |
| `BackdropHistory.NoticedIsTold` | kestrel/engine/src/shell-backdrop-spread.c:150-151 | a change that is found anywhere its view is repainted marks every other view that has a backdrop |
| `BackdropHistory.PaintElsewhereTellsAll` | kestrel/engine/src/shell-backdrop.c:297-298 | a paint that is for no view marks every view that has a backdrop |
| `BackdropHistory.NextKeepsTrust` | kestrel/engine/src/shell-backdrop.c:96-116 | every event, hidden and shown frames, failed copies, paints without a view and replaced views, keeps every view's promise, and a shown frame leaves nothing pending |
| `BackdropHistory.RunKeepsTrust` | kestrel/engine/src/shell-backdrop.c:194-353 | over any run of surfaces that stay, move or change their size, what a view trusts is what was behind it when it last painted, and what changed since will be noticed, if each frame looks behind all that was trusted or takes the surface anew |
| `BackdropHistory.CaptureTrustsVisible` | kestrel/engine/src/shell-backdrop.c:296-350 | a capture trusts nothing but what is visible now and, of the same geometry, what was trusted before |
| `BackdropHistory.SteadyRunsAreSighted` | kestrel/engine/src/shell-backdrop.c:278-353 | over any run from empty backdrops in which visible pixels lie in the looked-behind area and that does not shrink for one geometry, all that is trusted lies where the surface last looked, so every frame looks behind it or takes the surface anew |
| `BackdropHistory.SteadyRunKeepsTrust` | kestrel/engine/src/shell-backdrop.c:194-353 | over any such run every view's promise is kept, with no condition on what a backdrop holds on the way |
| `BackdropHistory.UnattendedGoesStale` | kestrel/engine/src/shell-backdrop-spread.c:37-46 | a trusted pixel outside the looked-behind area can go stale unnoticed while the surface stays where it is |
| `BackdropHistory.KeepsUpWhenAttended` | kestrel/engine/src/shell-backdrop.c:303-350 | whatever changes behind it, a surface's frame at a geometry leaves only right pixels trusted if and only if the geometry is another than the backdrop's or nothing it trusts lies outside the looked-behind area |
| `BackdropObjects.Surface.LookBehind` | kestrel/engine/src/shell-backdrop-spread.c:134-160 | the first look asks the shared scene and all other surfaces, marks the other views' backdrops exactly if something changed elsewhere, and leaves the frame as the function on values does with what it found, with a reference to the live clip itself |
| `BackdropObjects.BackdropObject.LookAtGrowth` | kestrel/engine/src/shell-backdrop-spread.c:162-178 | the same of every later look |
| `BackdropObjects.BackdropObject.SpreadReach` | kestrel/engine/src/shell-backdrop-spread.c:180-221 | growing the shared clip in place adds exactly the ring |
| `BackdropObjects.Surface.SpreadRedrawClip` | kestrel/engine/src/shell-backdrop-spread.c:223-250 | a whole turn in place, shown or hidden, on a known view or a new one: answer, clip, frame, scene and the other views' marks are those of the function on values, for what was behind and on other glass when it began |
| `BackdropObjects.BackdropObject.ForgetFrame` | kestrel/engine/src/shell-backdrop-spread.c:252-270 | before a view paints again all is forgotten but the changes and what another view noticed |
| `BackdropObjects.BackdropObject.Forget` | kestrel/engine/src/shell-backdrop.c:96-101 | a surface that is not shown trusts no pixel and remembers no change |
| `BackdropObjects.BackdropObject.EnsureBackdrop` | kestrel/engine/src/shell-backdrop.c:194-228 | replaces, clears or keeps the texture as the function on values says |
| `BackdropObjects.BackdropObject.Capture` | kestrel/engine/src/shell-backdrop.c:278-353 | a capture in place, reading what the clip it refers to has grown to, is the capture on values |
| `BackdropObjects.RepaintedPixelsOf` | kestrel/engine/src/shell-backdrop.c:251-276 | going through a region's scaled rectangles gives exactly the framebuffer pixels that show it, at any scale |
| `BackdropObjects.ScaledRectShows` | kestrel/engine/src/shell-backdrop.c:263-273 | a pixel is in a scaled rectangle exactly when the stage unit it shows is in the rectangle |
| `BackdropObjects.OtherGlassRefreshes` | kestrel/engine/src/shell-backdrop-spread.c:109-132 | answers whether some other surface with a backdrop on the view changed and spread over the region |
| `BackdropObjects.Surface.MarkBehindChanged` | kestrel/engine/src/shell-backdrop.c:103-116 | every backdrop but the excepted one is marked, and that one is left as it is |
| `BackdropObjects.Surface.BackdropForView` | kestrel/engine/src/shell-backdrop.c:65-85 | a view keeps its backdrop, and a new view gets an empty one |
| `Fingerprints.PrintIsTakenBack` | kestrel/engine/src/shell-backdrop-behind.c:43-48 | for every value, mixing is a bijection of the print modulo 2^64 |
| `Fingerprints.ValueIsTakenBack` | kestrel/engine/src/shell-backdrop-behind.c:43-48 | for every print, mixing is a bijection of the value |
| `Fingerprints.MixTellsApart` | kestrel/engine/src/shell-backdrop-behind.c:43-48 | prints, and values, that differ are mixed to prints that differ |
| `Fingerprints.DifferenceShows` | kestrel/engine/src/shell-backdrop-behind.c:146-183 | two sequences that differ in one value only never get the same print, whatever comes before and after |
| `BackdropBehind.OneDifferenceShows` | kestrel/engine/src/shell-backdrop-behind.c:146-183 | scenes whose mixed values differ in exactly one place get different prints |
| `BackdropBehind.OpacityShows` | kestrel/engine/src/shell-backdrop-behind.c:154-161 | another opacity of one ancestor always changes the print |
| `BackdropBehind.ParentShows` | kestrel/engine/src/shell-backdrop-behind.c:154-161 | so does another actor in an ancestor's place |
| `BackdropBehind.ClipShows` | kestrel/engine/src/shell-backdrop-behind.c:50-74 | so does a clip of which one number differs |
| `BackdropBehind.ActorShows` | kestrel/engine/src/shell-backdrop-behind.c:162-171 | so does another actor in the place of a sibling that paints |
| `BackdropBehind.Behind.BehindChanged` | kestrel/engine/src/shell-backdrop-behind.c:139-191 | the loop over ancestors and siblings answers for each of the two regions TRUE if and only if some ancestor is damaged with no damaged child, the print differs from the last look's, or a damaged sibling that paints is unbounded or in the region, or was when last looked at; it keeps the print and the placements for the next look |
| `BackdropBehind.ToldExactly` | kestrel/engine/src/shell-backdrop-behind.c:127-191 | the same of the answer as a function of the scene, spelled out in the fields of levels, siblings and former placements |
| `BackdropBehind.KeptIsPainted` | kestrel/engine/src/shell-backdrop-behind.c:165-188 | what a look keeps is the placements of exactly the siblings that paint |
| `BackdropBehind.Behind.LookAtLevel` | kestrel/engine/src/shell-backdrop-behind.c:158-180 | one ancestor mixes its own values and those of the siblings that paint, in order |
| `BackdropBehind.MixClip` | kestrel/engine/src/shell-backdrop-behind.c:50-74 | a clip mixes its four numbers, no clip one zero |
| `BackdropBehind.PreviousPlacement` | kestrel/engine/src/shell-backdrop-behind.c:97-112 | finds a former placement of the actor exactly if there was one |
| `BackdropBehind.LookTwice` | kestrel/engine/src/shell-backdrop-behind.c:183-190 | a scene that differs in one mixed value from the one looked at before is reported as rearranged, here and elsewhere |
| `BackdropBehind.SecondLookMissesDepartures` | kestrel/engine/src/shell-backdrop-behind.c:165-190 | of two looks at one scene of which the first finds nothing where its view is repainted, the second misses what it would have been told as the first if and only if something damaged was in its region before, and nothing damaged is there now |
| `BackdropBehind.LookFromTwoViews` | kestrel/engine/src/shell-backdrop-behind.c:139-191 | the same of two calls on the object: the second view is told here exactly if a first look would have been and it is not only a departure |
| `BackdropBehind.AnActorLeaves` | kestrel/engine/src/shell-backdrop-behind.c:183-190 | an actor that leaves one view's glass for where neither view shows it is missed by both if the other view looks first, and found if the one it left does |
| `BackdropBehind.HereIsElsewhere` | kestrel/engine/src/shell-backdrop-behind.c:127-137 | what reaches the blurred region reaches what is repainted around it |
| `WindowOrder.ComparesRightlyWhileNear` | kestrel/engine/src/shell-app.c:673-701 | among windows of the same rank the comparator, wrapping as 32-bit subtraction does, is right if and only if the times are less than half the clock apart, or exactly half one way around |
| `WindowOrder.SortIsPermutation` | kestrel/engine/src/shell-app.c:723-730 | sorting loses and adds no window |
| `WindowOrder.SortSorts` | kestrel/engine/src/shell-app.c:703-730 | windows used at times near each other come out by active workspace, visibility and latest use |
| `WindowOrder.FarTimesSortWrongly` | kestrel/engine/src/shell-app.c:700 | two windows half the clock apart come out the wrong way around |
| `WindowOrder.SortedWhileItFits` | kestrel/engine/src/shell-app.c:673-701 | a sorted list stays sorted when one window changes in any way if and only if the changed one still goes between its two neighbours |
| `Apps.SyncIsSound` | kestrel/engine/src/shell-app.c:862-906 | after syncing, an app that is not starting runs exactly while a window is interesting, and the set of running apps agrees and changed for no other app |
| `Apps.TransitionIsSound` | kestrel/engine/src/shell-app.c:862-875 | a transition sets the state, except from running to starting, and keeps the set in step for this app and untouched for others |
| `Apps.AddIsSound` | kestrel/engine/src/shell-app.c:953-986 | adding a window, also one that is there already, keeps the counter equal to the windows on the taskbar and the running state in step |
| `Apps.RemoveIsSound` | kestrel/engine/src/shell-app.c:988-1014 | removing takes out that window only, never counts below zero, and drops the running state with the last window |
| `Apps.SkipChangeIsSound` | kestrel/engine/src/shell-app.c:909-926 | a window that leaves or joins the taskbar keeps the counter exact |
| `Apps.StartupIsSound` | kestrel/engine/src/shell-app.c:1048-1063 | a completed startup sequence leaves an app running exactly if it has a window, one that begins only turns a stopped app into a starting one, and both keep everything else |
| `Apps.DisposeStops` | kestrel/engine/src/shell-app.c:1627-1643 | disposing lets go of all windows and ends stopped, unless the app was starting, which it stays |
| `AppSystem.UserTimeStaysSorted` | kestrel/engine/src/shell-app.c:877-892 | the window in front may be used again without marking the order stale, because it stays in front; any other of the app's marks it |
| `AppSystem.RefreshedIsSorted` | kestrel/engine/src/shell-app.c:714-730 | a list that is sorted lazily is in order whether it was stale or not |
| `AppSystem.NextKeeps` | kestrel/engine/src/shell-app.c:862-1063 | every event on any app keeps all apps counted, in their set and apart from each other |
| `AppSystem.RunKeeps` | kestrel/engine/src/shell-app-system.c:528-549 | over any run the set of running apps is exactly those in RUNNING, and RUNNING implies a window |
| `AppSystem.ListsExactly` | kestrel/engine/src/shell-app.c:953-1014 | after any step each app has exactly the windows that were added to it and neither removed nor let go of |
| `AppSystem.AbortsExactly` | kestrel/engine/src/shell-app.c:988-1000 | over any run an assertion fails if and only if a window is removed from an app that has none or an app is disposed of while starting |
| `AppSystem.OrderedUnlessMisplaced` | kestrel/engine/src/shell-app.c:703-730 | a step leaves an app's list sorted or marked stale if and only if it does not change the workspace or visibility of one of its windows so that the window no longer goes between its neighbours |
| `AppSystem.UndisturbedIsInOrder` | kestrel/engine/src/shell-app.c:703-730 | over any run, with windows that change their workspace and visibility, a list with no window misplaced since it was last marked stale is sorted or marked stale |
| `AppSystem.GivenWindowsAreSorted` | kestrel/engine/src/shell-app.c:703-737 | after any run an app gives each of its windows that is not override-redirect exactly once, and in the promised order if none was misplaced since its list was last marked stale |
| `AppSystem.DisposeAbortsWhileStarting` | kestrel/engine/src/shell-app.c:1635-1640 | disposing trips the assertion if and only if the app is starting |
| `AppSystem.StartingLasts` | kestrel/engine/src/shell-app.c:894-906 | an app that is starting stays so over every event but the completion of its own startup sequence |
| `AppSystem.HidingIsNotNoticed` | kestrel/engine/src/shell-app.c:723-730 | whatever else an app system holds, hiding the front one of an app's two visible windows on a workspace leaves them given in the wrong order and not marked stale |
| `AppObjects.AppObject.StateTransition` | kestrel/engine/src/shell-app.c:862-875 | a transition changes state and set together, and a running app never becomes a starting one |
| `AppObjects.AppObject.Add` | kestrel/engine/src/shell-app.c:953-986 | adding in place is the function on values |
| `AppObjects.AppObject.Remove` | kestrel/engine/src/shell-app.c:988-1014 | removing in place is the function on values |
| `AppObjects.AppObject.OnSkipTaskbarChanged` | kestrel/engine/src/shell-app.c:909-926 | so is counting a window in or out |
| `AppObjects.AppObject.OnUserTimeChanged` | kestrel/engine/src/shell-app.c:877-892 | only a window that is not in front marks the order stale |
| `AppObjects.AppObject.HandleStartup` | kestrel/engine/src/shell-app.c:1048-1063 | a startup sequence in place is the function on values |
| `AppObjects.AppObject.Windows` | kestrel/engine/src/shell-app.c:714-737 | gives the managed windows of the list, sorted first if that was due, and clears the mark |
| `AppObjects.AppObject.DisposeOfWindows` | kestrel/engine/src/shell-app.c:1635-1640 | the loop ends with no window and no running state, stopped unless the app was starting |
| `AppIndex.ScanStartupWmClasses` | kestrel/engine/src/shell-app-system.c:108-152 | the loop computes the index of all claims weighed in turn |
| `AppIndex.IndexHoldsWinner` | kestrel/engine/src/shell-app-system.c:108-152 | a class is in the index exactly if it is claimed, with the winner: the last exact match if shown, or if hidden the first shown entry after it or else itself; without one the first shown entry, or else the first |
| `AppIndex.ExactIds` | kestrel/engine/src/shell-app-system.c:92-106 | an id matches a class exactly if and only if it is the class, with or without .desktop |
| `AppIndex.OneWins` | kestrel/engine/src/shell-app-system.c:136-150 | no two entries can both win a class |
| `AppIndex.ScanSteamGames` | kestrel/engine/src/shell-app-system.c:167-186 | the loop computes the index of all games in turn |
| `AppIndex.SteamIndexHoldsBest` | kestrel/engine/src/shell-app-system.c:167-186 | a game is in the index exactly if it is launched, with the last shown entry or else the first |
| `AppIndex.GameIsFound` | kestrel/engine/src/shell-app-system.c:154-165 | the number after the first address in a command line is found whole, whatever surrounds it |
| `AppCache.RunKeeps` | kestrel/engine/src/shell-app-cache.c:192-266 | every notification belongs to one reload, in order, started no earlier than it, once QUIET has passed since the last one or LONGEST_WAIT since the first, and less than LONGEST_WAIT plus QUIET (and the timer's lateness) after the first of its burst, or is still waited for; only the last reload started can still be applied |
| `AppCache.RestIsUpToDate` | kestrel/engine/src/shell-app-cache.c:192-266 | at rest what is applied was read after the last notification and replaced glyphs have been shown |
| `AppCache.AppliedMovesOn` | kestrel/engine/src/shell-app-cache.c:205-225 | only the newest reload is ever applied, never one that was overtaken |
| `AppCache.TasksExactly` | kestrel/engine/src/shell-app-cache.c:192-247 | a reload is under way from when its time is up until it comes back, once; only the newest is applied, with what it started from |
| `AppCache.GlyphsAreRemembered` | kestrel/engine/src/shell-app-cache.c:216-222 | over any run replaced glyphs are remembered if and only if they were replaced since a reload was last applied |
| `AppCache.CacheObject.QueueUpdate` | kestrel/engine/src/shell-app-cache.c:249-266 | queueing in place starts, moves or leaves the timer as the function on values does |
| `AppCache.CacheObject.DoUpdate` | kestrel/engine/src/shell-app-cache.c:227-247 | the reload under way is cancelled and a new one takes its place |
| `AppCache.CacheObject.ApplyUpdate` | kestrel/engine/src/shell-app-cache.c:192-225 | a cancelled reload changes nothing that is shown |
| `AppCache.CacheObject.OnCustomGlyphsChanged` | kestrel/engine/src/shell-app-cache.c:308-313 | replaced glyphs are remembered and queue an update |
| `UnitNames.EscapeUnitName` | kestrel/engine/src/shell-app-scope.c:172-186 | the loop escapes every byte of a name in order |
| `UnitNames.UnescapeUndoesEscape` | kestrel/engine/src/shell-app-scope.c:172-186 | unescaping by the rules of unit names undoes escaping for every string of bytes |
| `UnitNames.EscapedHasNoDash` | kestrel/engine/src/shell-app-scope.c:179-182 | the escaped part has no dash and only bytes a unit's name may have |
| `UnitNames.EscapesOnlyOthers` | kestrel/engine/src/shell-app-scope.c:179-182 | ASCII letters and digits, colons, underscores and dots are kept and every other byte becomes \x and two lower-case hexadecimal digits; a name is unchanged if and only if it has only the former |
| `UnitNames.UnitNameReadsBack` | kestrel/engine/src/shell-app-scope.c:204-205 | a scope's name reads back as its base name and process number |
| `UnitNames.UnitNamesTellApart` | kestrel/engine/src/shell-app-scope.c:204-205 | so equal names mean equal base names and equal processes |
| `UnitNames.UnitNameSpelledOut` | kestrel/engine/src/shell-app-scope.c:204-205 | the name is app-kestrel-, the escaped base name, a dash, the number in decimal without leading zeros and .scope |
| `UnitNames.PathsAreCut` | kestrel/engine/src/shell-app-scope.c:197-198 | a path's base name is its file's, also with slashes after it |
| `UnitNames.SlashesAreOne` | kestrel/engine/src/shell-app-scope.c:197-198 | a path of slashes only is one slash |
| `UnitNames.DesktopFilesAreCut` | kestrel/engine/src/shell-app-scope.c:199-200 | any name followed by .desktop gives the name, if it is no path |
| `UnitNames.OtherNamesStay` | kestrel/engine/src/shell-app-scope.c:201-202 | any name that is no path and does not end in .desktop is itself |
| `UnitNames.NoNameIsUnknown` | kestrel/engine/src/shell-app-scope.c:195-196 | no name gives org.freedesktop.Unknown |
| `UnitNames.UnitNameOf` | kestrel/engine/src/shell-app-scope.c:188-206 | no name, a path, a desktop file and any other name are told apart and made into the unit's name |
| `PolkitAgent.RunKeeps` | kestrel/engine/src/shell-polkit-authentication-agent.c:270-415 | over any run at most one request is current, the last that began; none waits while there is none; requests begin in the order they arrived; each is live or was answered exactly once; one answered as finished had begun or was cancelled |
| `PolkitAgent.NextKeeps` | kestrel/engine/src/shell-polkit-authentication-agent.c:270-415 | each event keeps that |
| `PolkitAgent.UnregisterLeavesNothing` | kestrel/engine/src/shell-polkit-authentication-agent.c:310-326 | after unregistering every request that ever arrived has been answered exactly once, none is pending and none was begun by it |
| `PolkitAgent.TurnsCome` | kestrel/engine/src/shell-polkit-authentication-agent.c:330-377 | after as many answers as there are requests ahead, a waiting one is current |
| `PolkitAgent.UserIsHeard` | kestrel/engine/src/shell-polkit-authentication-agent.c:425-433 | an answer while a request is current returns exactly that request's, dismissed or finished as the user said, and without one nothing happens |
| `PolkitAgent.AnswersAreDeserved` | kestrel/engine/src/shell-polkit-authentication-agent.c:270-358 | over any run a request is answered as finished if and only if the user did not dismiss it or its idle turn came while it waited, and as dismissed if and only if the user dismissed it or the agent was unregistered while it was live |
| `PolkitAgent.IdleExactly` | kestrel/engine/src/shell-polkit-authentication-agent.c:290-302 | a request's idle turn is due from its cancellation until it comes or the request is gone |
| `PolkitAgent.StopsExactly` | kestrel/engine/src/shell-polkit-authentication-agent.c:270-288 | the user is told to stop if and only if the current request's idle turn comes |
| `PolkitAgent.Agent.InitiateAuthentication` | kestrel/engine/src/shell-polkit-authentication-agent.c:379-415 | a request arrives, cancelled already or not, as the function on values says |
| `PolkitAgent.Agent.MaybeProcessNextRequest` | kestrel/engine/src/shell-polkit-authentication-agent.c:360-377 | the first that waits begins if none is current |
| `PolkitAgent.Agent.HandleCancelledInIdle` | kestrel/engine/src/shell-polkit-authentication-agent.c:270-302 | a cancelled current request tells the user, a waiting one is finished |
| `PolkitAgent.Agent.AuthRequestComplete` | kestrel/engine/src/shell-polkit-authentication-agent.c:330-358 | completing answers, frees and moves on as the function on values says |
| `PolkitAgent.Agent.CompleteCurrent` | kestrel/engine/src/shell-polkit-authentication-agent.c:425-433 | the current request is returned exactly what the user said; an answer without a current request is ignored |
| `PolkitAgent.Agent.Unregister` | kestrel/engine/src/shell-polkit-authentication-agent.c:310-326 | the loop over a list that shrinks under it dismisses every request once |
| `NetworkAgent.RunKeeps` | kestrel/engine/src/shell-network-agent.c:93-110 | over any run the table holds exactly the unanswered calls, one for each id; no call is answered twice; an uncancelled search always belongs to a request that is still there, and a request that waits always has one |
| `NetworkAgent.NextKeeps` | kestrel/engine/src/shell-network-agent.c:235-388 | each event keeps that, and never touches a request that is gone |
| `NetworkAgent.SearchKeeps` | kestrel/engine/src/shell-network-agent.c:234-327 | a search that comes back is ignored if cancelled, and otherwise answers its request or shows it to the user |
| `NetworkAgent.SearchAnswersOrAsks` | kestrel/engine/src/shell-network-agent.c:301-327 | a search that was not cancelled answers its call with what it found, or the user is asked, never both: always for a VPN, and otherwise if nothing is found and the user may be asked |
| `NetworkAgent.AskedOnlyWhenAllowed` | kestrel/engine/src/shell-network-agent.c:301-376 | the user is only ever asked for an open call that allows it or is a VPN's |
| `NetworkAgent.AskedAtOnce` | kestrel/engine/src/shell-network-agent.c:369-387 | a call is put to the user at once if and only if it wants new secrets, or may interact with a connection that always asks; otherwise its search begins |
| `NetworkAgent.AnswersAreDeserved` | kestrel/engine/src/shell-network-agent.c:75-147 | over any run a call is answered with something if and only if an event answered it with that: cancelled by a repeated call, by the network manager or at the end, what a search found, or the dialog's cancelled, failed or confirmed with what was entered |
| `NetworkAgent.SavedWhenConfirmed` | kestrel/engine/src/shell-network-agent.c:472-481 | secrets are saved if and only if a dialog is confirmed for a call that may interact or wants new ones |
| `NetworkAgent.RepeatedCallDisplaces` | kestrel/engine/src/shell-network-agent.c:344-365 | a repeated call answers the first as cancelled, cancels its search and takes its place |
| `NetworkAgent.FinalizeAnswersAll` | kestrel/engine/src/shell-network-agent.c:119-147 | at the end every call has been answered exactly once and searches still to come back are ignored |
| `NetworkAgent.ConfirmedAnswer` | kestrel/engine/src/shell-network-agent.c:460-490 | a confirmed dialog, however it came to be shown, answers with what it was shown with and, over that, every password and VPN secret entered in any order |
| `NetworkAgent.ShownWith` | kestrel/engine/src/shell-network-agent.c:301-376 | a dialog is shown with what the keyring held if that was searched, and with nothing if new secrets are asked for or it always asks |
| `NetworkAgent.IdTellsApart` | kestrel/engine/src/shell-network-agent.c:344 | an id stands for one connection and one setting, for names of settings without a slash |
| `NetworkAgent.IdsCoincide` | kestrel/engine/src/shell-network-agent.c:344 | two connections and settings share an id if and only if they are the same or one's path goes on, over a slash, with the beginning of the other's setting |
| `NetworkAgent.NetworkAgent.GetSecrets` | kestrel/engine/src/shell-network-agent.c:329-388 | a call in place is the function on values |
| `NetworkAgent.NetworkAgent.SearchReturns` | kestrel/engine/src/shell-network-agent.c:234-327 | so is a search coming back |
| `NetworkAgent.NetworkAgent.Respond` | kestrel/engine/src/shell-network-agent.c:423-491 | so is the dialog's response |
| `NetworkAgent.NetworkAgent.CancelGetSecrets` | kestrel/engine/src/shell-network-agent.c:550-572 | cancelling a call that has been answered does nothing |
| `NetworkAgent.NetworkAgent.Finalize` | kestrel/engine/src/shell-network-agent.c:119-147 | going through the table in any order answers every open request once |
| `NetworkAgent.NetworkAgent.AddVpnSecret` | kestrel/engine/src/shell-network-agent.c:390-404 | a secret is added to the request of that id only |
| `KeyringSave.RunKeeps` | kestrel/engine/src/shell-network-agent.c:634-650 | over any run, with the stores coming back in any order, the caller is told at most once and exactly when every store begun has come back, and nothing is used after it is freed |
| `KeyringSave.StoredSecrets` | kestrel/engine/src/shell-network-agent.c:652-744 | of all values of a connection, exactly the texts of secrets that are not empty and the agent's own are stored |
| `KeyringSave.StoredInOrder` | kestrel/engine/src/shell-network-agent.c:714-760 | values are stored in the order they come in |
| `KeyringSave.StoredOnce` | kestrel/engine/src/shell-network-agent.c:652-744 | a plain secret is stored once or not at all, and a VPN's as one by one |
| `KeyringSave.KeyringRequest.SaveDeleted` | kestrel/engine/src/shell-network-agent.c:746-768 | the loop over all settings counts every store it begins, and finishes at once if there is none |
| `KeyringSave.KeyringRequest.SaveSecretReturned` | kestrel/engine/src/shell-network-agent.c:634-650 | one store less, and the last finishes |
| `KeyringSave.KeyringRequest.WriteOneSecret` | kestrel/engine/src/shell-network-agent.c:714-744 | stores a string secret, or each of a VPN's, and nothing else |
| `ModifierChord.SignalsAlternate` | kestrel/engine/src/shell-modifier-chord.c:126-237 | over any run every ACTIVATED is followed by one RELEASED or CANCELLED before the next, and the chord is active exactly in between |
| `ModifierChord.UnspoiledIsClean` | kestrel/engine/src/shell-modifier-chord.c:145-224 | while keys are held the spoiled flag is exactly whether an event since the first of them came down spoils |
| `ModifierChord.ActivatedExactly` | kestrel/engine/src/shell-modifier-chord.c:145-173 | ACTIVATED comes if and only if a modifier key comes down that makes the held ones exactly those wanted, while the chord is not active and nothing has spoiled it since no key was held |
| `ModifierChord.EndedExactly` | kestrel/engine/src/shell-modifier-chord.c:126-240 | an active chord tells RELEASED if and only if a modifier key comes up, CANCELLED if and only if another key, a button, an unwanted modifier or other modifiers interrupt it, and nothing else; an inactive one tells at most ACTIVATED |
| `ModifierChord.KeysExactly` | kestrel/engine/src/shell-modifier-chord.c:112-262 | exactly the keys are held that came down and whose modifiers every key event since has told, and none once they come up or the modifiers change |
| `ModifierChord.SymbolsHaveKeys` | kestrel/engine/src/shell-modifier-chord.c:40-71 | each symbol is of a key with its modifier and the masks events tell it by |
| `ModifierChord.KeysTellApart` | kestrel/engine/src/shell-modifier-chord.c:40-52 | two symbols are of one key if and only if one key's layouts give both |
| `ModifierChord.SoundUnlessLeftBehind` | kestrel/engine/src/shell-modifier-chord.c:112-224 | an active chord stays held and unspoiled at a step if and only if the step is not one of four that follow a missed release |
| `ModifierChord.ActiveIsHeld` | kestrel/engine/src/shell-modifier-chord.c:112-189 | over any run that misses no release, active implies held equals the modifiers and not spoiled |
| `ModifierChord.MissedReleasesLeaveItActive` | kestrel/engine/src/shell-modifier-chord.c:112-155 | from a new chord, asking for Super and Alt, both coming down, two missed releases and a letter leave it active with no key held |
| `ModifierChord.ChordObject.HeldModifiers` | kestrel/engine/src/shell-modifier-chord.c:99-110 | the loop gives the modifiers of exactly the held keys |
| `ModifierChord.ChordObject.ForgetReleasedKeys` | kestrel/engine/src/shell-modifier-chord.c:112-124 | the loop drops exactly the keys whose modifier the event does not carry, but for its own key |
| `ModifierChord.ChordObject.Pressed` | kestrel/engine/src/shell-modifier-chord.c:145-173 | a press in place is the function on values |
| `ModifierChord.ChordObject.FilterEvent` | kestrel/engine/src/shell-modifier-chord.c:191-224 | so is every event |
| `ModifierChord.ChordObject.SetModifiers` | kestrel/engine/src/shell-modifier-chord.c:226-262 | other modifiers cancel an active chord and start over, the same ones do nothing |
| `Crc.ComputeCrc32` | extensions/strays/art/canvas.ts:66-73 | the two loops over bytes and bits compute the CRC of the recursive definition |
| `CrcRemainder.CrcIsRemainder` | extensions/playthings/art/picture.ts:63-70 | the CRC of bytes, complemented, is the remainder of their bits times x^32, the first 32 complemented, divided by the standard's polynomial |
| `CrcRemainder.RemainderIsOnly` | extensions/playthings/art/picture.ts:63-70 | a polynomial of bits leaves one remainder only, divided by any of degree 32 |
| `CrcRemainder.PolynomialIsGenerator` | extensions/strays/art/canvas.ts:70 | the constant's bits are the exponents 26, 23, 22, 16, 12, 11, 10, 8, 7, 5, 4, 2, 1 and 0 of the standard's polynomial |
| `Crc.BitStepLosesNothing` | extensions/playthings/art/picture.ts:67 | a bit step of the CRC is injective |
| `Crc.FeedIsOneWord` | extensions/playthings/art/picture.ts:63-70 | up to four bytes fed one by one are fed as one word |
| `Crc.BurstChangesCrc` | extensions/playthings/art/picture.ts:63-70 | contents that differ only inside four bytes in a row always get different CRCs |
| `Png.PictureChunk` | extensions/playthings/art/picture.ts:72-80 | the chunk laid into one buffer is length, name, payload and CRC, the length modulo 2^32 |
| `Png.CanvasChunk` | extensions/strays/art/canvas.ts:75-82 | the chunk copied together is the same bytes, or an error if the length does not fit |
| `Png.FrameTwice` | extensions/strays/art/canvas.ts:75-82 | both encoders frame a chunk to the same bytes if and only if its length fits |
| `Png.BitsOfWordBytes` | extensions/playthings/art/picture.ts:78 | the CRC is written highest byte first, each byte's bits in order |
| `Words.BigEndianWeighs` | extensions/playthings/art/picture.ts:75 | a number that fits is written as four bytes that weigh 2^24, 2^16, 2^8 and 1 |
| `Png.SplitRecovers` | extensions/playthings/art/picture.ts:105 | splitting a stream of chunks, checking every CRC, recovers every name and payload |
| `Png.BurstsAreNoticed` | extensions/playthings/art/picture.ts:78 | a payload damaged inside four bytes in a row is never read as a chunk |
| `PngFiles.WriteLines` | extensions/strays/art/canvas.ts:90-91 | the loop lays every line after a filter byte of zero, cut off or filled up where the buffer has another length |
| `PngFiles.EncodePng` | extensions/strays/art/canvas.ts:84-98 | the file is the signature and three chunks, or an error if a size or the packed data does not fit |
| `PngFiles.FileIsLaidOut` | extensions/strays/art/canvas.ts:84-98 | every file is the standard's signature, an IHDR chunk of 13 bytes for 8-bit RGBA without interlacing, one IDAT chunk and an empty IEND |
| `PngFiles.UnfilterRecovers` | extensions/strays/art/canvas.ts:90-91 | reading the lines back gives the pixels |
| `PngFiles.DecodeUndoesEncode` | extensions/strays/art/canvas.ts:84-98 | decoding gives back width, height and RGBA bytes if and only if the buffer has the length the size asks for, provided that inflating undoes deflating |
| `Grids.CellIsSquare` | extensions/strays/art/canvas.ts:105-106 | a place is in a cell's square exactly if dividing its coordinates gives that cell, so no cell overlaps another |
| `SpriteSheets.Canvas.Dot` | extensions/strays/art/canvas.ts:13-16 | paints the pixel a place is rounded to, and nothing outside the frame |
| `SpriteSheets.Canvas.Outline` | extensions/strays/art/canvas.ts:45-53 | outlines in place what was painted before it began |
| `SpriteSheets.OutlineGoesAround` | extensions/strays/art/canvas.ts:45-53 | exactly the empty pixels above, below or beside a painted one are coloured, and the frame's edges do not meet |
| `SpriteSheets.FillSquare` | extensions/strays/art/canvas.ts:110-114 | a pixel's square is filled and nothing else, or it is past the last row |
| `SpriteSheets.DrawFrame` | extensions/strays/art/canvas.ts:107-115 | after a frame every place shows its painted pixel there or what it showed before |
| `SpriteSheets.SheetPixels` | extensions/strays/art/canvas.ts:100-118 | at any zoom every output pixel shows the source pixel of its grid cell or transparency; a painted frame past the last row is the only error |
| `SpriteSheets.FramePixelIsShown` | extensions/strays/art/canvas.ts:105-114 | each pixel of each frame is shown in its square of the sheet, at every zoom, as its colour and full alpha or as nothing |
| `SpriteSheets.ShownBytes` | extensions/strays/art/canvas.ts:112 | what is shown at a place is its four bytes, line by line |
| `SpriteSheets.SheetSurvivesItsFile` | extensions/strays/art/draw.ts:51-53 | the sheet's file, read back, shows every frame's pixels |
| `Pictures.InksInRangeAreTheOnesThatKeep` | extensions/playthings/art/picture.ts:26-34 | an ink keeps every premultiplied pixel premultiplied if and only if it is in range or has no alpha |
| `Pictures.LaidGoesTowardsInk` | extensions/playthings/art/picture.ts:26-34 | laying an ink takes each channel from what is under it towards the ink's by as much as the ink's alpha, and alpha towards one |
| `Pictures.SampleIsPremultiplied` | extensions/playthings/art/picture.ts:52-60 | bilinear sampling stays premultiplied everywhere |
| `Pictures.SampleAtMiddle` | extensions/playthings/art/picture.ts:52-60 | at a pixel's middle sampling gives that pixel |
| `Pictures.SampleBetween` | extensions/playthings/art/picture.ts:52-60 | between the middles of four pixels a sample is mixed from exactly these by how far across and down it is |
| `Pictures.StraightInkInRange` | extensions/playthings/art/picture.ts:47-48 | dividing a premultiplied pixel by its alpha gives an ink that is in range if and only if its strengthened alpha is at most one |
| `Pictures.StraightInkExactly` | extensions/playthings/art/picture.ts:47-48 | the divided ink, made premultiplied again, is the pixel, as strong as it is stamped, and there is none without alpha |
| `Pictures.InkInsideExactly` | extensions/playthings/art/picture.ts:46-48 | a stamp inks nothing outside the other picture's square, and a sample's straight colour inside |
| `Pictures.StampInksInRange` | extensions/playthings/art/picture.ts:41-50 | a stamp of a premultiplied picture at strength up to one, at any place, size and turn, lays only inks in range |
| `Pictures.StampIsTurnedScaledAndMoved` | extensions/playthings/art/picture.ts:41-49 | every place of a stamped picture is inked where turning, scaling and moving it puts it |
| `Pictures.StampedAxes` | extensions/playthings/art/picture.ts:41-49 | its middle comes to the given place, and its sides point where the angle says, as long as the scale |
| `Pictures.ColourStaysPremultiplied` | extensions/playthings/art/picture.ts:22-60 | however a picture is made by painting and stamping, also of pictures so made and onto itself, 0 <= channel <= alpha <= 1 at every pixel |
| `Pictures.StampInPlaceCopies` | extensions/playthings/art/picture.ts:40-50 | stamped over nothing in its own place, a picture comes out as it is |
| `Pictures.Picture.Paint` | extensions/playthings/art/picture.ts:22-38 | the loops lay the ink of every pixel's middle over that pixel |
| `Pictures.Picture.Stamp` | extensions/playthings/art/picture.ts:41-50 | stamping lays what the other picture leaves at every pixel; a picture stamped onto itself is sampled as it is painted, each pixel from all before it |
| `PictureSheets.CutsBeyondHalfAStep` | extensions/playthings/art/picture.ts:95-96 | a channel's byte is the nearest there is if and only if the channel is no more than half a step out of range |
| `PictureSheets.PremultipliedIsNotCut` | extensions/playthings/art/picture.ts:94-96 | of a premultiplied pixel every byte is the nearest there is, so the clamps cut nothing |
| `PictureSheets.PixelsAreApart` | extensions/playthings/art/picture.ts:93 | pixels of a sheet overlap neither each other nor a filter byte |
| `PictureSheets.LayPicture` | extensions/playthings/art/picture.ts:88-99 | one picture's writes are in bounds, fill its cell and leave everything else and every filter byte alone |
| `PictureSheets.SheetLines` | extensions/playthings/art/picture.ts:83-99 | every place of the sheet shows the pixel of its cell's picture or nothing, and every filter byte is zero |
| `PictureSheets.PicturePixelIsShown` | extensions/playthings/art/picture.ts:88-97 | each pixel of each picture is shown at its place of the grid as straight colour, and what a smaller picture lacks as nothing |
| `PictureSheets.ShownBytes` | extensions/playthings/art/picture.ts:93 | what is shown at a place is its four bytes, each line after its filter byte |
| `PictureSheets.RowsAreEnough` | extensions/playthings/art/picture.ts:85 | there are as many rows as the pictures take, and no more |
| `PictureSheets.SheetFile` | extensions/playthings/art/picture.ts:100-112 | the file is laid out as the other encoder's |
| `PictureSheets.SheetDecodes` | extensions/playthings/art/picture.ts:83-113 | the sheet's file decodes to exactly what its lines show |

## Left out

- Textures, shaders, actors and the compositor itself: a texture is a map from texels to colours, a copy obliges or fails as
  a whole, and scale is a whole number of pixels.
- BackdropBehind.Behind.BehindChanged: whether an ancestor has a damaged child is an input, and boxes are already rounded to
  whole pixels.
- BackdropHistory.RunKeepsTrust: what looks behind a surface is taken to report what is still owed to the view in the
  region it is asked about, and to answer that something changed elsewhere if what is owed to the view lies in what is
  repainted. The look itself, `BackdropBehind`, falls short of that for departures that another view's look has used up,
  and its fingerprint alone may miss changes in two or more places.
- Single-precision rounding of positions, reaches and colours; colours and places are real numbers, and the turn of a stamp
  is any two real numbers in place of a cosine and a sine.
- PictureSheets.SheetLines: does not model a grid of no columns.
- ClipFilters.ApplyRedrawClipFilters: one frame; that layers may grow the clip again in the next is not a step of its own.
- The canvas's map, ellipse, rectangle and shading, which only call for more dots.
- Compression: two functions of which the reader asks that one undoes the other.
- AppSystem.GivenWindowsAreSorted: times grow and stay near each other. The workspace an app was started on, to which a
  new window is moved, and handlers that ask for the windows while one is being added are not part of this model.
- AppObjects.AppObject.Windows: the library's stable sort is modelled as an insertion sort.
- Apps.AddIsSound: the counter of windows is unbounded above.
- AppIndex.IndexHoldsWinner: ids of installed entries are unique.
- AppCache.RunKeeps: a reload's reading of apps, icons and names is one step, taken to be no earlier than its start.
- PolkitAgent.RunKeeps: signals that handlers answer from within are events that follow; a cancellable is cancelled once.
- NetworkAgent.RunKeeps: a dialog only fills in and confirms what it was shown, as a request without entries has nothing to
  fill in; the agent's own reference counting, which keeps it alive while requests are open, is not modelled.
- NetworkAgent.ConfirmedAnswer: secrets are texts, and the save that follows is `KeyringSave`.
- ModifierChord.ChordObject.SetModifiers: handlers that change the modifiers while they are told of a cancellation.
- Looking up user names, plugins and D-Bus actions; the art drawings, previews and guide pictures.
