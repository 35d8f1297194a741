# Search Tabs: a Dafny model of the overlay state machine and the preference helper

Search Tabs is a browser add-on that puts one tab per installed search engine along the bottom
of each browser window. The tabs slide between three offsets: hidden (-100), partial (-64)
and shown (0). A click on a tab searches that engine for the last recorded text. A debounced
checker decides where the tabs go from the current text selection or the focused text field.
A small preference helper reads typed preferences under `extensions.searchTabs.`, seeds their
defaults, and filters change notifications.

This project models those two parts and proves their rules:

- `wrappers.dfy`: `Option`. `None` stands for JavaScript's `undefined`/`null`.
- `js_text.dfy` (module `JsText`): `String.trim` as ECMAScript 5 defines it (section 15.5.4.20),
  with the white space and line terminators of sections 7.2 and 7.3. The space separators are
  those of Unicode 6.0, which ECMAScript 5 engines used and which still count U+180E. Also the anchored,
  case-insensitive tests `/^(html:)?input$/i` and `/^text$/i`. Without the Unicode flag these
  fold only ASCII letters against an ASCII pattern (section 15.10.2.8).
- `animation.dfy` (module `Animation`): the `OFFSETS` constants, and one tab's margins and
  pending animation step. It covers `tab.offset`, `tab.shift` (cancel, then restart from the
  current position) and a timer step (interpolate; finish at `step == 1`). It also covers the
  per-tab loop of `shiftAll`.
- `checker.dfy` (module `Checker`): the checker's decision rule as a function.
- `overlay.dfy` (module `Overlay`): class `SearchTabs`, one window's box of tabs. Its fields
  are the group offset, the tabs, the check timer's pending flag, the recorded search value and
  the pending startup hide. There is one method per event: click, mouseover, mouseout, startup
  hide, checker event, check timer, animation step. Each method keeps `Valid()`: the group
  offset is always hidden, partial or shown, and every tab's margins stay within
  [hidden, shown] and mirror each other.
- `prefs.dfy` (module `Prefs`): the defaults and root, the type-directed `pref(key)` with its
  cached branch, the change-notification filter, and the loop that seeds defaults. The host
  preference service is a default branch and a user branch, both maps from full names to
  boolean, integer or string values. A user value takes precedence.

Margins are `real`s, because the add-on interpolates fractional pixel values.
`parseInt(margin) || 0` becomes truncation toward zero. The tabs start with no margin set,
which reads back as 0.

The code defines three preference keys: `checkInput`, `checkLocation` and `checkSelection`.
None of the three is read by `bootstrap.js`.

## Model

| member | source | states |
|---|---|---|
| `JsText.Trim` | bootstrap.js:214 | the trimmed selection is empty iff every character is white space (ECMAScript 5 white space, line terminators and the Unicode 6.0 space separators, U+180E included); when not empty it starts and ends with a non-white-space character |
| `JsText.TrimBounds` | bootstrap.js:214 | the kept slice is bracketed by pure white space on both sides and is maximal: its first and last characters are not white space |
| `JsText.TrimIgnoresPadding` | bootstrap.js:214 | adding white space before or after a selection does not change the trimmed text |
| `JsText.TrimKeepsCore` | bootstrap.js:214 | the selection is the trimmed text with only white space around it |
| `JsText.TrimIdempotent` | bootstrap.js:214 | trimming twice equals trimming once |
| `JsText.NodeNameExamples` | bootstrap.js:224-226 | `INPUT`, `input`, `html:input`, `HTML:Input` pass the node-name test; `TEXTAREA`, `xinput`, `html:` fail it; `text`/`TEXT` pass the type test, `password`/`search` fail it |
| `JsText.EqualsIgnoreCaseLowered` | bootstrap.js:225-226 | against an all-lower-case pattern, an anchored case-insensitive match holds iff lower-casing the ASCII letters of the subject gives exactly the pattern |
| `JsText.RegexTestsFold` | bootstrap.js:225-226 | for every string, `/^(html:)?input$/i` matches iff its ASCII lower-casing is `input` or `html:input`, and `/^text$/i` matches iff its lower-casing is `text` |
| `JsText.TestsIgnoreCase` | bootstrap.js:225-226 | both tests give the same answer for any two strings equal up to ASCII case, and for a string and its lower-cased form |
| `Animation.OffsetsOrdered` | bootstrap.js:46-50 | the three `OFFSETS` hidden (-100), partial (-64) and shown (0) are strictly ordered, so every offset lies in [hidden, shown] |
| `Animation.TruncateToInt` | bootstrap.js:113 | the start position read back from the margin is the margin truncated toward zero (within 1 of it, on the side of zero) |
| `Animation.Place` | bootstrap.js:100-102 | `tab.offset(x)` sets margin-bottom to x and margin-top to -x and leaves the pending step alone; placing a valid tab keeps it valid exactly when x lies in [hidden, shown] |
| `Animation.Shift` | bootstrap.js:107-119 | a shift leaves the margins where they are and schedules one animation toward the target from the truncated current margin; a valid tab shifted toward an offset stays valid |
| `Animation.ShiftCancelsPending` | bootstrap.js:108-110 | the result of a shift does not depend on any animation that was pending before it (the old step is cancelled) |
| `Animation.Interpolate` | bootstrap.js:121-124 | for a step in [0, 1] the interpolated position lies between start and target, is the start at step 0 and the target at step 1 |
| `Animation.Advance` | bootstrap.js:119-131 | a timer step moves the tab to the interpolated position with mirrored margins; the animation stays pending while step < 1 and is cleared, with the tab on the target, at step 1; validity is preserved |
| `Animation.ShiftCompletes` | bootstrap.js:101-102 | a shift that completes leaves margin-bottom equal to the target, margin-top its negation and nothing pending |
| `Animation.ShiftInPlaceStays` | bootstrap.js:113-124 | re-shifting a resting tab to the offset it already sits on keeps it there at every step |
| `Animation.RunSteps` | bootstrap.js:119-131 | a run of timer steps never changes the pending animation, it only clears it, and keeps the tab valid |
| `Animation.StepsEndOnTarget` | bootstrap.js:119-131 | any run of steps below 1 followed by a step of 1 ends on the target with nothing pending |
| `Animation.ShiftEach` | bootstrap.js:78 | shifting every tab keeps the number and order of tabs and gives tab i exactly `Shift(tabs[i], offset)` |
| `Checker.IsTextField` | bootstrap.js:223-226 | the focus counts as a text field iff an element is focused, its node name lower-cases to `input` or `html:input` and its type lower-cases to `text` |
| `Checker.Decide` | bootstrap.js:209-232 | the check never yields shown; it yields partial iff it records a non-empty text; it records iff the selection has non-white-space or a text input is focused; a selection wins and records its trimmed text; otherwise the focused text field's value is recorded |
| `Checker.DecideNeverShows` | bootstrap.js:214-231 | the checker never sends the tabs to the shown offset |
| `Checker.DecideIgnoresSurroundingSpace` | bootstrap.js:214-218 | white space around the selection does not change the decision |
| `Overlay.SearchTabs.Valid` | bootstrap.js:46-50 | the state invariant: the group offset is one of the three `OFFSETS`, hence in [hidden, shown], and every tab's margin-bottom lies in [hidden, shown] with margin-top its negation |
| `Overlay.SearchTabs.constructor` | bootstrap.js:72-73 | a new box starts shown, with one fresh tab per engine, no check pending, no recorded value and the startup hide pending |
| `Overlay.SearchTabs.ShiftAll` | bootstrap.js:76-79 | the group offset becomes the given offset and every tab is shifted toward it, number and order unchanged |
| `Overlay.SearchTabs.Click` | bootstrap.js:136-145 | while hidden, nothing changes and no search starts; otherwise everything is hidden and the tab's engine searches the recorded value |
| `Overlay.SearchTabs.MouseOver` | bootstrap.js:162-166 | only the hovered tab is retargeted, to shown, and only when the group is not hidden; the group offset does not change |
| `Overlay.SearchTabs.MouseOut` | bootstrap.js:157-160 | only the tab left is retargeted, to the current group offset; the group offset does not change |
| `Overlay.SearchTabs.StartupHide` | bootstrap.js:192-197 | the startup timer hides everything only if the group is still exactly shown; partial and hidden are left untouched |
| `Overlay.SearchTabs.Schedule` | bootstrap.js:200-207 | an event schedules a check only when none is pending, and a check is pending afterwards |
| `Overlay.SearchTabs.RunCheck` | bootstrap.js:206-233 | the pending flag is cleared; all tabs shift to the decided offset; the decided text, if any, replaces the recorded value, else the value is kept |
| `Overlay.SearchTabs.Apply` | bootstrap.js:214-232 | carrying out a decision: the group moves to the decided offset, every tab shifts toward it, and the recorded value changes only when the decision records a text |
| `Overlay.SearchTabs.Tick` | bootstrap.js:119-131 | one animation step of one tab; no other tab moves; a final step lands that tab on its target |
| `Prefs.TypeOf` | scripts/prefs.js:49-56 | definition of the `typeof` switch: booleans select the bool getter, numbers the int getter, strings the char getter, and exactly the other types select none |
| `Prefs.AsPref` | scripts/prefs.js:95-105 | a default of a preference type is written as the preference of that type and value; other types write nothing |
| `Prefs.DefaultOf` | scripts/prefs.js:49 | `defaults[key]` as an own property: None exactly when the key is not listed, and otherwise a value listed for that key |
| `Prefs.Read` | scripts/prefs.js:50-55 | definition of a typed getter: it never returns null; it returns the effective value exactly when one exists with that type, and throws otherwise |
| `Prefs.Lookup` | scripts/prefs.js:42-58 | `pref(key)` is null iff the key has no default of a preference type; otherwise it is the effective value of root+key when that has the default's type, else the getter throws |
| `Prefs.PrefFunction.constructor` | scripts/prefs.js:61-66 | the helper starts with no cached branch, root `extensions.searchTabs.` and the three defaults |
| `Prefs.PrefFunction.Get` | scripts/prefs.js:42-58 | the branch is fetched on the first call only and reused afterwards (at most one fetch ever); the result is `Lookup` at the root |
| `Prefs.DefaultsAreTheCheckFlags` | scripts/prefs.js:61-66 | the listed keys are exactly checkInput, checkLocation and checkSelection, all booleans, and only checkLocation is true |
| `Prefs.Slice` | scripts/prefs.js:79 | `data.slice(n)` is what follows the first n characters, or empty when data is shorter |
| `Prefs.Notify` | scripts/prefs.js:73-85 | any topic other than `nsPref:changed` is ignored; otherwise the callback is called once, with the name minus the root's length, iff that key is watched |
| `Prefs.NotifyRoundTrip` | scripts/prefs.js:79-84 | for a change of root+key the callback receives exactly key when key is watched, and nothing otherwise |
| `Prefs.SeedOne` | scripts/prefs.js:95-105 | one loop step writes root+key with the setter for the default's type, and writes nothing for other types; the set of names grows by at most root+key and every other name keeps its value |
| `Prefs.Seeded` | scripts/prefs.js:93-107 | after the whole loop the names in the default branch are the old ones plus one full name per default of a preference type |
| `Prefs.SeededWrites` | scripts/prefs.js:93-107 | with distinct keys, each default of a preference type ends up stored under root+key with its own value |
| `Prefs.SeededKeepsOthers` | scripts/prefs.js:93-107 | a name the loop does not write keeps its old value, or stays absent |
| `Prefs.SeededSpec` | scripts/prefs.js:93-107 | after the loop every default of a preference type is stored under root+key with its value, and every other name is as before |
| `Prefs.InitDefaults` | scripts/prefs.js:93-107 | the loop visits the defaults in order and leaves the default branch seeded; user values are untouched |
| `Prefs.FreshProfileLookup` | scripts/prefs.js:42-107 | after seeding, with no user values, `pref` gives checkLocation=true, checkInput=false, checkSelection=false and null for every other key |

## Left out

- DOM construction and styling are not modelled: box attributes, border radius, the engine icon, and the gradient and shadow built from the dominant colour (bootstrap.js:58-64, 89-97, 169-189). They are presentation only.
- The tab opacity `(offset - hidden) / -hidden` (bootstrap.js:103) is left out: it is display only and depends on floating point.
- Animation.Advance: the easing value `Math.pow(Math.min(1, elapsed / 150), 1.5)` and the `Date.now()` clock are not modelled. The step value is a parameter in [0, 1], which is the easing's range whenever the clock does not run backwards.
- Animation.Place: margins are exact reals. The host's rounding when a length is written as `x + "px"` and read back is not modelled.
- Search execution is not modelled (`engine.getSubmission`, `isTabEmpty`, `openUILinkIn`, `loadURI`, `focus`; bootstrap.js:145-154). These are host calls. A click reports `Search(engine, value)` instead.
- `Services.search.getEngines()`, `makeWindowHelpers`, `getDominantColor`, `watchWindows`, `unload`, `async` and `listen` are not part of this model. They live in helper scripts outside it. The constructor takes the number of engines.
- Moving the box to the selected browser on `TabSelect`, add-on lifecycle (`startup`, `shutdown`, `install`, `uninstall`) and script loading are not modelled. They are host plumbing.
- Timers and the event loop are not modelled. A timer firing is an explicit call, allowed only while that timer is pending. The 5000 ms and 100 ms delays do not appear.
- Overlay.SearchTabs.RunCheck: the selection text is a parameter. The model does not track which window's selection is read (that of the event that scheduled the check). The focused element's `type` is always a string; a matching `nodeName` with no `type`, which would throw, is not modelled.
- Prefs.Notify: observer registration and removal with the host (scripts/prefs.js:88-89) are not modelled. The filter is a function whose result is the callback's argument.
- Prefs.DefaultOf: names inherited from `Object.prototype`, such as `toString`, give a function or object in JavaScript rather than `undefined`. The model folds them into None. Neither has a preference type, so `pref` returns null for them either way.
- Prefs.AsPref: numeric defaults are integers. Fractional numbers passed to `setIntPref` are not modelled.
- Prefs.InitDefaults: the host's refusal to store a default whose type conflicts with an existing preference of another type is not modelled.
