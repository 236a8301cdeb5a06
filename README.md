# osu! Freeze Frame preemption and the HUD mod display, in Dafny

This project models two small pieces of the osu! game client and proves
properties of them.

- **Freeze Frame** (`freeze_frame.dfy`, module `FreezeFrame`) is a gameplay mod.
  While a beatmap is prepared, it rewrites each osu! hit object's preemption.
  The preemption is how long before its start time an object appears. For each
  top-level osu! hit object the mod looks up the beat length at the object's
  start time. It computes `TimePreempt + (StartTime + 5) % (BeatLength * BeatDivisor)`
  once. It then writes that one value into the object and into every nested
  osu! hit object at any depth. The beat divisor is a user setting from 0.25 to
  5 in steps of 0.25.
- **ModDisplay** (`mod_display.dfy`, module `HudModDisplay`) is the HUD widget
  that shows one icon per active mod. Its expansion mode is ExpandOnHover,
  AlwaysExpanded or AlwaysContracted. The mode and the hover state decide
  whether the icons are spread out (spacing 5) or overlapped (spacing -25).
  The widget can also pass an "extended information" flag to all of its icons.

Times, durations and beat lengths are exact `real`s. C#'s `%` on doubles
truncates the quotient toward zero, so its result takes the sign of the
dividend. `FreezeFrame.TruncRem` models that operator. `TruncRemUnique` proves
that it is the only value with that sign and size that differs from the
dividend by a whole number of windows. Hit objects form a class whose nested
objects are fixed. Ghost footprints (`osuDescendants`, `height`) describe what
the recursive adjustment visits and bound its depth. The display is a class
with the framework's `IsLoaded` and `IsHovered` flags as fields. It keeps the
icons as objects and records every spacing transform it issues as a target
and a duration. `Valid()` is its invariant: once loaded, the last target is 5
exactly when the mode is AlwaysExpanded, or ExpandOnHover while hovered, and
-25 otherwise. Every event handler preserves it.

C#'s `%` takes the sign of `StartTime + 5`, not of the window. So an object
more than 5 ms before the start of the track gets an offset in (−window, 0]
instead of [0, window) (`NewPreempt`, `NegativeStartShrinksPreempt`). The
offset is 0 when `StartTime + 5` is a whole multiple of the window.

## Model

| member | source | states |
|---|---|---|
| `FreezeFrame.BeatDivisorSteps` | osu.Game.Rulesets.Osu/Mods/OsuModFreezeFrame.cs:33-38 | a setting value is one of the twenty multiples k·0.25 with 1 ≤ k ≤ 20 |
| `FreezeFrame.BeatDivisorStepsComplete` | osu.Game.Rulesets.Osu/Mods/OsuModFreezeFrame.cs:33-38 | each of the twenty multiples k·0.25 with 1 ≤ k ≤ 20, the bounds 0.25 and 5 included, is an allowed setting value |
| `FreezeFrame.DefaultBeatDivisorIsValid` | osu.Game.Rulesets.Osu/Mods/OsuModFreezeFrame.cs:33 | the default divisor 1 is an allowed setting value |
| `FreezeFrame.Truncate` | osu.Game.Rulesets.Osu/Mods/OsuModFreezeFrame.cs:52 | the quotient behind C#'s `%` is rounded toward zero: it is at most one unit from the real quotient, on the zero side |
| `FreezeFrame.TruncRem` | osu.Game.Rulesets.Osu/Mods/OsuModFreezeFrame.cs:52 | `x % y` for y > 0 has the sign of x and magnitude below y |
| `FreezeFrame.TruncRemUnique` | osu.Game.Rulesets.Osu/Mods/OsuModFreezeFrame.cs:52 | any value x − k·y with the sign of x and magnitude below y equals `x % y`, so TruncRem is exactly C#'s remainder |
| `FreezeFrame.TruncRemOdd` | osu.Game.Rulesets.Osu/Mods/OsuModFreezeFrame.cs:52 | `(-x) % y == -(x % y)`, which a floored or Euclidean modulo does not satisfy |
| `FreezeFrame.BeatWindow` | osu.Game.Rulesets.Osu/Mods/OsuModFreezeFrame.cs:52 | the window `BeatLength * BeatDivisor` is positive for a positive beat length and an allowed divisor |
| `FreezeFrame.BeatWindowBounds` | osu.Game.Rulesets.Osu/Mods/OsuModFreezeFrame.cs:33-38 | the window lies between 0.25 and 5 beat lengths |
| `FreezeFrame.BeatWindowMonotonic` | osu.Game.Rulesets.Osu/Mods/OsuModFreezeFrame.cs:52 | for a fixed beat length, a larger divisor gives a strictly larger window |
| `FreezeFrame.PreemptOffset` | osu.Game.Rulesets.Osu/Mods/OsuModFreezeFrame.cs:52 | `(StartTime + 5) % window` lies in [0, window) when StartTime + 5 ≥ 0 and in (−window, 0] when it is ≤ 0 |
| `FreezeFrame.NewPreempt` | osu.Game.Rulesets.Osu/Mods/OsuModFreezeFrame.cs:52 | when StartTime + 5 ≥ 0 the new preemption lies in [old, old + window); before that it lies in (old − window, old] |
| `FreezeFrame.NewPreemptExample` | osu.Game.Rulesets.Osu/Mods/OsuModFreezeFrame.cs:51-52 | with a 500 ms beat, divisor 1, start 1203 ms and preemption 600 ms, the new preemption is 808 ms |
| `FreezeFrame.NegativeStartShrinksPreempt` | osu.Game.Rulesets.Osu/Mods/OsuModFreezeFrame.cs:52 | an object at −10 ms has offset −5, so its 600 ms preemption becomes 595 ms |
| `FreezeFrame.NewPreemptNotIdempotent` | osu.Game.Rulesets.Osu/Mods/OsuModFreezeFrame.cs:52 | applying the formula twice adds the offset twice; a second application leaves the value unchanged only when the offset is zero |
| `FreezeFrame.HitObject.ApplyFadeInAdjustment` | osu.Game.Rulesets.Osu/Mods/OsuModFreezeFrame.cs:55-59 | the object and every object it reaches through osu! hit objects, at any depth, end with exactly the given preemption; only `timePreempt` of those objects may change |
| `FreezeFrame.ReachIsOsu` | osu.Game.Rulesets.Osu/Mods/OsuModFreezeFrame.cs:55-59 | what the pass visits from a list of objects is osu! hit objects only: an object of another kind is skipped with everything below it |
| `FreezeFrame.AdjustTree` | osu.Game.Rulesets.Osu/Mods/OsuModFreezeFrame.cs:51-53 | one osu! object's new preemption is computed once from its original preemption, its start time and the beat length there; the object and everything it reaches end with that value |
| `FreezeFrame.ApplyToBeatmap` | osu.Game.Rulesets.Osu/Mods/OsuModFreezeFrame.cs:45-62 | each top-level osu! object and everything it reaches end with NewPreempt of that object's original preemption, its start time and the beat length there; other objects and all start times and nesting are left alone |
| `FreezeFrame.NestedAdjustmentExample` | osu.Game.Rulesets.Osu/Mods/OsuModFreezeFrame.cs:49-60 | a nested osu! object at 1500 ms takes its ancestor's 808 ms, a nested object of another kind keeps 450 ms, and a second pass gives 1016 ms |
| `FreezeFrame.SkippedSubtreeExample` | osu.Game.Rulesets.Osu/Mods/OsuModFreezeFrame.cs:49-59 | an osu! hit object nested below an object of another kind keeps its 450 ms preemption |
| `HudModDisplay.ShouldExpand` | osu.Game/Screens/Play/HUD/ModDisplay.cs:37-40 | AlwaysExpanded always expands, AlwaysContracted never does, ExpandOnHover expands exactly while hovered |
| `HudModDisplay.SettledSpacing` | osu.Game/Screens/Play/HUD/ModDisplay.cs:37-40 | the spacing a mode settles on is 5 or −25: 5 for AlwaysExpanded, −25 for AlwaysContracted, and 5 exactly while hovered for ExpandOnHover |
| `HudModDisplay.ModIcon.constructor` | osu.Game/Screens/Play/HUD/ModDisplay.cs:116 | a new icon shows the given mod with the given extended-information flag, at the initial scale 1 |
| `HudModDisplay.ModDisplay.constructor` | osu.Game/Screens/Play/HUD/ModDisplay.cs:73-84 | a new display is unloaded and unhovered, in ExpandOnHover, with no icons and the given extended-information flag |
| `HudModDisplay.ModDisplay.SetExpansionMode` | osu.Game/Screens/Play/HUD/ModDisplay.cs:25-43 | setting the current mode changes nothing; before load the mode is only stored; once loaded a new mode issues one 500 ms transform to the spacing the mode and hover state call for; the invariant is kept |
| `HudModDisplay.ModDisplay.SetCurrent` | osu.Game/Screens/Play/HUD/ModDisplay.cs:47-56 | a null list is refused with ArgumentNull and changes nothing; any other list becomes the bound list, and a loaded display rebuilds its icons from it |
| `HudModDisplay.ModDisplay.SetShowExtendedInformation` | osu.Game/Screens/Play/HUD/ModDisplay.cs:60-69 | the flag is stored and set on every icon in the container; the icons, their order and their scale are unchanged |
| `HudModDisplay.ModDisplay.LoadComplete` | osu.Game/Screens/Play/HUD/ModDisplay.cs:86-109 | the icons are rebuilt from the bound mods, then one transform with duration 0 goes to 5 for AlwaysExpanded, −25 for AlwaysContracted, and 5 or −25 by hover for ExpandOnHover |
| `HudModDisplay.ModDisplay.UpdateDisplay` | osu.Game/Screens/Play/HUD/ModDisplay.cs:111-117 | the container holds exactly one new icon per mod, in order, each with the display's flag and scale 0.6; no old icon is left |
| `HudModDisplay.ModDisplay.Expand` | osu.Game/Screens/Play/HUD/ModDisplay.cs:119-123 | issues a transform to spacing 5 with the given duration, except in AlwaysContracted, where nothing happens |
| `HudModDisplay.ModDisplay.Contract` | osu.Game/Screens/Play/HUD/ModDisplay.cs:125-129 | issues a transform to spacing −25 with the given duration, except in AlwaysExpanded, where nothing happens |
| `HudModDisplay.ModDisplay.OnHover` | osu.Game/Screens/Play/HUD/ModDisplay.cs:131-135 | the display becomes hovered and expands for 500 ms unless it is always contracted; the invariant is kept |
| `HudModDisplay.ModDisplay.OnHoverLost` | osu.Game/Screens/Play/HUD/ModDisplay.cs:137-141 | the display stops being hovered and contracts for 500 ms unless it is always expanded; the invariant is kept |
| `HudModDisplay.HoverScenario` | osu.Game/Screens/Play/HUD/ModDisplay.cs:30-40 | an AlwaysContracted display stays at −25 under the cursor; switching it to ExpandOnHover while hovered goes to 5; losing the hover goes back to −25 |
| `HudModDisplay.IconScenario` | osu.Game/Screens/Play/HUD/ModDisplay.cs:52-67 | two bound mods give two icons in order; turning the flag off reaches both; a null list is refused and the two icons stay |

## Left out

- `FollowPoints.Hide()` and the empty visibility hooks are rendering only (osu.Game.Rulesets.Osu/Mods/OsuModFreezeFrame.cs:40-43, 64-72).
- The call to `base.ApplyToBeatmap` (osu.Game.Rulesets.Osu/Mods/OsuModFreezeFrame.cs:47) goes into the mod framework, which is not part of this model.
- The mod's metadata (name, acronym, score multiplier, icon, incompatible mods) is constant data.
- `TimingPointAt` is a parameter `beatLengthAt` that returns a positive beat length. The lookup in the control points is not modelled.
- Doubles are exact reals, so IEEE rounding in the preemption formula is not modelled. The sign rule of C#'s `%` is kept.
- The beat divisor is required to be an allowed setting value. The bindable's clamping and snapping of out-of-range input are framework code.
- The nested-object list is constant because the mod never changes it. How the beatmap builds that list is not modelled.
- ApplyToBeatmap: requires the top-level osu! objects to reach disjoint sets of objects, since each object owns what is nested below it. The source does not check this. If two objects shared a nested object, the later write would win.
- SetCurrent: rebuilds the icons when the new list differs from the old one by value. The framework's bindable compares list references, and its binding and unbinding are not modelled.
- OnHover, OnHoverLost: set the hover flag themselves, standing in for the framework setting `IsHovered` before it calls them. The return value of `base.OnHover` is not modelled.
- ModDisplay.constructor: takes the extended-information flag as a required argument; C#'s default value `true` has no counterpart in Dafny, and callers pass it explicitly.
- Mod ordering (`AsOrdered`) is external. The bound list is taken to be in display order already.
- Spacing transforms are recorded as target and duration only. The easing, tweening, layout, draw order and icon drawing are rendering.
- `osu.Game/Tests/Visual/OnlinePlay/TestRoomManager.cs` is a test fixture for online rooms. It is not part of this model.
