# domino-ui Layout panels and DatePicker calendar arithmetic, in Dafny

This project models two pieces of logic from the domino-ui widget library,
separated from the DOM work around them.

- **Layout panel state machine** (`Layout.java`). This covers the left and
  right slide-out panels, the overlay, and the fixed and disabled modes of
  the left panel. It also covers the footer's responsive fix/unfix
  bookkeeping and the ordered list of left-panel state handlers. The state
  is an immutable record (`Layout.LayoutState`). Every public operation is a
  pure function that returns a `Step`: the new state plus the ordered log of
  handler calls the operation makes (`HandlerList.Call`).
- **DatePicker calendar arithmetic** (`DatePicker.java`). This covers
  month navigation over a `(year, month)` pair, the weekday-name index
  shifted by the locale's first day of the week, the default year window,
  and the options of the year and month select boxes. It also covers the
  ordered handler lists (add, remove one occurrence, clear, notify in
  order).

Files:

- `handlers.dfy`, module `HandlerList`: ordered handler lists and
  notification logs. Both components use it.
- `layout.dfy`, module `Layout`: the state record and every transition.
- `layout_properties.dfy`, module `LayoutProperties`: a datatype of all
  operations, runs of operation sequences, the invariants, and scenario and
  counterexample lemmas.
- `datepicker.dfy`, module `DatePicker`: navigation, the day-name index and
  the selectors.

### Where the code departs from the usual description of the layout

The component is often described as keeping "overlay visible iff some panel
is visible" and "the two panels are never both open". The code does neither.
The model follows the code:

- `hideRightPanel` hides the overlay even when the left panel stays visible
  (`LayoutProperties.OverlayClearedWhileLeftVisible`).
- `fixLeftPanelPosition` shows the left panel and then hides the overlay
  (`LayoutProperties.FixedPanelHasNoOverlay`).
- `showRightPanel` calls `hideLeftPanel`, which does nothing for a fixed
  panel. So both panels can be visible together
  (`LayoutProperties.BothPanelsVisibleWhenFixed`).

The invariant the code does keep is weaker, and
`LayoutProperties.ReachableInv` proves it:

- a visible overlay implies that some panel is visible;
- a fixed left panel is visible;
- a disabled left panel is neither visible nor fixed.

Handler notification is not edge-triggered. Showing an already visible panel
notifies every handler again.

Two more behaviours of the footer code are modelled as written:

- `hideFooter` does not clear `footerVisible`.
- `fixedFooter` is never reset.
- The second small-and-down listener sets `fixedFooter` for any visible
  footer, even one that was never fixed. A small-and-down crossing followed
  by a medium-and-up one therefore fixes a footer that was shown unfixed
  (`LayoutProperties.VisibleUnfixedFooterGetsFixed`).

## Model

| member | source | states |
|---|---|---|
| Layout.Init | domino-ui/src/main/java/org/dominokit/domino/ui/layout/Layout.java:41-57 | A new layout has no panel or overlay visible, is neither disabled nor fixed, has no footer bookkeeping set and has no handlers |
| Layout.ShowLeftPanel | domino-ui/src/main/java/org/dominokit/domino/ui/layout/Layout.java:258-271 | Does nothing when the panel is disabled. Otherwise the left panel and overlay end visible and the right panel hidden, the fixed flag and footer are untouched, and every handler is called with true in order, even if the panel was already visible |
| Layout.HideLeftPanel | domino-ui/src/main/java/org/dominokit/domino/ui/layout/Layout.java:273-284 | Does nothing when the panel is fixed or disabled. Otherwise the left panel and overlay end hidden, the right panel is unchanged, and every handler is called with false in order |
| Layout.ToggleLeftPanel | domino-ui/src/main/java/org/dominokit/domino/ui/layout/Layout.java:242-249 | Does nothing when disabled, or when the panel is visible and fixed. Otherwise flips left visibility, the overlay ends equal to the new visibility, and every handler is called with the new visibility. The disabled and fixed flags are kept. Opening the left panel closes the right one; closing it leaves the right one alone |
| Layout.ShowRightPanel | domino-ui/src/main/java/org/dominokit/domino/ui/layout/Layout.java:210-218 | The right panel and overlay end visible. The left panel stays visible exactly when it was visible and fixed (or disabled). Handlers are called only through the left panel's hide |
| Layout.HideRightPanel | domino-ui/src/main/java/org/dominokit/domino/ui/layout/Layout.java:220-226 | The right panel and overlay end hidden. The left panel, fixed and disabled flags are untouched and no handler is called |
| Layout.ToggleRightPanel | domino-ui/src/main/java/org/dominokit/domino/ui/layout/Layout.java:203-208 | Always flips right visibility, and the overlay ends equal to the new right visibility. Closing the right panel touches neither the left panel nor the handlers. Opening it leaves the left panel visible exactly when it was visible and fixed (or disabled), and makes the calls of hiding the left panel when it was visible |
| Layout.HidePanels | domino-ui/src/main/java/org/dominokit/domino/ui/layout/Layout.java:197-201 | The right panel and overlay always end hidden. The left panel ends hidden unless it was fixed or disabled |
| Layout.FixLeftPanelPosition | domino-ui/src/main/java/org/dominokit/domino/ui/layout/Layout.java:352-363 | Does nothing when disabled. Otherwise the left panel ends visible and fixed, the overlay and right panel hidden, and handlers are called with true |
| Layout.UnfixLeftPanelPosition | domino-ui/src/main/java/org/dominokit/domino/ui/layout/Layout.java:365-374 | Does nothing when disabled. Otherwise only the fixed flag is cleared: no visibility changes and no handler is called |
| Layout.DisableLeftPanel | domino-ui/src/main/java/org/dominokit/domino/ui/layout/Layout.java:386-395 | Always ends disabled. If it was not disabled, the panel ends unfixed and hidden with the overlay hidden, and handlers are called with false |
| Layout.EnableLeftPanel | domino-ui/src/main/java/org/dominokit/domino/ui/layout/Layout.java:397-404 | Clears the disabled flag and changes nothing else |
| Layout.OnLeftPanelStateChanged | domino-ui/src/main/java/org/dominokit/domino/ui/layout/Layout.java:536-539 | Appends the handler to the end of the list and changes nothing else |
| Layout.RemoveLeftPanelHandler | domino-ui/src/main/java/org/dominokit/domino/ui/layout/Layout.java:541-544 | An absent handler leaves the layout unchanged. Otherwise exactly the first occurrence is cut out, the order of the rest is kept, and the list loses one copy of the handler and nothing else. No other field changes |
| Layout.FixFooter | domino-ui/src/main/java/org/dominokit/domino/ui/layout/Layout.java:406-415 | The footer is rendered fixed; nothing else changes |
| Layout.UnfixFooter | domino-ui/src/main/java/org/dominokit/domino/ui/layout/Layout.java:421-425 | The footer is no longer rendered fixed; nothing else changes |
| Layout.ShowFooter | domino-ui/src/main/java/org/dominokit/domino/ui/layout/Layout.java:323-327 | The footer is displayed and recorded as visible |
| Layout.HideFooter | domino-ui/src/main/java/org/dominokit/domino/ui/layout/Layout.java:318-321 | The footer is no longer displayed but stays recorded as visible |
| Layout.FooterOnSmallAndDown | domino-ui/src/main/java/org/dominokit/domino/ui/layout/Layout.java:79-91 | Both small-screen listeners together: with auto-unfix on and a footer that is fixed or visible, fixedFooter becomes true and the footer is unfixed. Otherwise nothing changes |
| Layout.FooterOnMediumAndUp | domino-ui/src/main/java/org/dominokit/domino/ui/layout/Layout.java:93-97 | The footer is fixed again only when auto-unfix is on and both fixedFooter and footerVisible are set. Otherwise nothing changes |
| Layout.AutoFixOnSmallAndDown | domino-ui/src/main/java/org/dominokit/domino/ui/layout/Layout.java:509-517 | The small-screen listener of autoFixLeftPanel does nothing when disabled. Otherwise the panel ends unfixed and hidden, the overlay hidden, and handlers are called with false |
| Layout.OnSmallAndDown | domino-ui/src/main/java/org/dominokit/domino/ui/layout/Layout.java:79-91 | A whole small-screen crossing leaves the footer and handlers as the footer listeners alone would. Without autoFixLeftPanel, or with a disabled panel, no panel flag changes and no handler is called. Otherwise the left panel ends hidden and unfixed with no overlay, the right panel is kept, and handlers are called with false |
| Layout.OnMediumAndUp | domino-ui/src/main/java/org/dominokit/domino/ui/layout/Layout.java:93-97 | A whole medium-and-up crossing leaves the footer and handlers as the footer listener alone would. Without autoFixLeftPanel, or with a disabled panel, no panel flag changes and no handler is called. Otherwise the left panel ends visible and fixed, the overlay and right panel hidden, and handlers are called with true |
| LayoutProperties.InitInv | domino-ui/src/main/java/org/dominokit/domino/ui/layout/Layout.java:41-48 | The initial state satisfies the three invariants |
| LayoutProperties.LeftPanelOpsPreserveInv | domino-ui/src/main/java/org/dominokit/domino/ui/layout/Layout.java:258-284 | Show, hide, fix, unfix, disable and enable of the left panel each keep the three invariants |
| LayoutProperties.RightPanelOpsPreserveInv | domino-ui/src/main/java/org/dominokit/domino/ui/layout/Layout.java:197-226 | Show and hide of the right panel and the overlay click each keep the three invariants |
| LayoutProperties.BreakpointsPreserveInv | domino-ui/src/main/java/org/dominokit/domino/ui/layout/Layout.java:501-517 | Both breakpoint crossings keep the three invariants, for every footer setting and with or without autoFixLeftPanel |
| LayoutProperties.ApplyPreservesInv | domino-ui/src/main/java/org/dominokit/domino/ui/layout/Layout.java:197-284 | Every public operation and breakpoint event keeps the invariants: overlay visible implies some panel visible; fixed implies left visible; disabled implies left neither visible nor fixed |
| LayoutProperties.RunPreservesInv | domino-ui/src/main/java/org/dominokit/domino/ui/layout/Layout.java:352-404 | Any sequence of operations started in a state satisfying the invariants ends in one |
| LayoutProperties.ReachableInv | domino-ui/src/main/java/org/dominokit/domino/ui/layout/Layout.java:41-48 | Every state reachable from construction satisfies the invariants |
| LayoutProperties.ApplyKeepsDisabled | domino-ui/src/main/java/org/dominokit/domino/ui/layout/Layout.java:386-393 | No single operation other than enabling clears the disabled flag |
| LayoutProperties.ApplyKeepsFixed | domino-ui/src/main/java/org/dominokit/domino/ui/layout/Layout.java:365-369 | No single operation other than unfix, disable or the autoFixLeftPanel small-screen listener clears the fixed flag |
| LayoutProperties.DisabledStaysHidden | domino-ui/src/main/java/org/dominokit/domino/ui/layout/Layout.java:258-259 | Once disabled, the left panel stays disabled and hidden under any sequence of calls that does not enable it |
| LayoutProperties.FixedStaysVisible | domino-ui/src/main/java/org/dominokit/domino/ui/layout/Layout.java:273-274 | Once fixed, the left panel stays fixed and visible under any sequence without unfix, disable or the autoFixLeftPanel small-screen listener |
| LayoutProperties.FixedIgnoresHide | domino-ui/src/main/java/org/dominokit/domino/ui/layout/Layout.java:273-284 | Hide and toggle on a fixed panel change nothing and call no handler |
| LayoutProperties.DisabledIgnoresShow | domino-ui/src/main/java/org/dominokit/domino/ui/layout/Layout.java:258-271 | Show and toggle on a disabled panel change nothing and call no handler |
| LayoutProperties.ShowLeftTwiceNotifiesTwice | domino-ui/src/main/java/org/dominokit/domino/ui/layout/Layout.java:262-267 | A second show leaves the state unchanged but calls every handler again with true |
| LayoutProperties.NewHandlerNotifiedLast | domino-ui/src/main/java/org/dominokit/domino/ui/layout/Layout.java:536-539 | After a handler is registered, a show calls the earlier handlers as before and then the new one |
| LayoutProperties.OverlayClearedWhileLeftVisible | domino-ui/src/main/java/org/dominokit/domino/ui/layout/Layout.java:220-226 | Hiding the right panel while an unfixed left panel is open leaves the left panel visible with the overlay hidden |
| LayoutProperties.BothPanelsVisibleWhenFixed | domino-ui/src/main/java/org/dominokit/domino/ui/layout/Layout.java:210-218 | From the initial state, fix then show right leaves both panels visible |
| LayoutProperties.FixedPanelHasNoOverlay | domino-ui/src/main/java/org/dominokit/domino/ui/layout/Layout.java:352-363 | From the initial state, show right then fix leaves the left panel visible and the right panel and overlay hidden |
| LayoutProperties.ScenarioLeftRightHide | domino-ui/src/main/java/org/dominokit/domino/ui/layout/Layout.java:210-284 | show left, show right, hide right from the initial state: left with overlay; then right only with overlay; then nothing visible |
| LayoutProperties.ScenarioDisableEnableShow | domino-ui/src/main/java/org/dominokit/domino/ui/layout/Layout.java:386-404 | disable, enable, show from the initial state ends with the left panel visible |
| LayoutProperties.FooterEventsLeavePanels | domino-ui/src/main/java/org/dominokit/domino/ui/layout/Layout.java:79-97 | Both footer breakpoint rules change no panel, overlay or handler state |
| LayoutProperties.ApplyKeepsFixedFooter | domino-ui/src/main/java/org/dominokit/domino/ui/layout/Layout.java:79-84 | No single operation resets fixedFooter |
| LayoutProperties.FixedFooterNeverReset | domino-ui/src/main/java/org/dominokit/domino/ui/layout/Layout.java:86-91 | Once set, fixedFooter stays set under every sequence of operations |
| LayoutProperties.FooterBreakpointRoundTrip | domino-ui/src/main/java/org/dominokit/domino/ui/layout/Layout.java:79-97 | A fixed, visible, auto-unfixing footer is unfixed on small-and-down. Medium-and-up then restores the original state, except that fixedFooter is now set |
| LayoutProperties.HiddenFooterIsRefixed | domino-ui/src/main/java/org/dominokit/domino/ui/layout/Layout.java:318-327 | A footer hidden after being shown is still re-fixed on medium-and-up, because hiding does not clear footerVisible |
| LayoutProperties.VisibleUnfixedFooterGetsFixed | domino-ui/src/main/java/org/dominokit/domino/ui/layout/Layout.java:86-97 | A visible footer that is neither fixed nor remembered as fixed stays unfixed on medium-and-up alone, but ends fixed after small-and-down then medium-and-up |
| LayoutProperties.ScenarioFooter | domino-ui/src/main/java/org/dominokit/domino/ui/layout/Layout.java:93-97 | Fix left, show a fixed footer, go small: the footer is unfixed with fixedFooter set and the panel still visible. Going back to medium re-fixes the footer |
| HandlerList.Add | src/main/java/org/dominokit/domino/ui/datepicker/DatePicker.java:312-315 | The new list is the old one with the handler at the end |
| HandlerList.RemoveFirst | src/main/java/org/dominokit/domino/ui/datepicker/DatePicker.java:317-320 | An absent handler leaves the list unchanged. Otherwise exactly its first occurrence is cut out and the order of the rest is kept |
| HandlerList.RemoveFirstMultiset | src/main/java/org/dominokit/domino/ui/datepicker/DatePicker.java:337-340 | Removal takes exactly one copy of the handler out of the list's contents and nothing else |
| HandlerList.Clear | src/main/java/org/dominokit/domino/ui/datepicker/DatePicker.java:326-329 | Clearing leaves no handler |
| HandlerList.Notify | src/main/java/org/dominokit/domino/ui/datepicker/DatePicker.java:398-402 | A notification round makes one call per registered handler, the i-th call to the i-th handler, all with the same argument |
| HandlerList.NotifyEach | src/main/java/org/dominokit/domino/ui/datepicker/DatePicker.java:392-396 | The indexed loop over the handlers makes exactly the calls of a notification round, in list order |
| HandlerList.NotifyAfterAdd | src/main/java/org/dominokit/domino/ui/datepicker/DatePicker.java:332-335 | A handler added last is called last, after the calls the earlier handlers already received |
| HandlerList.RemoveUndoesAdd | src/main/java/org/dominokit/domino/ui/datepicker/DatePicker.java:312-320 | Adding an absent handler and then removing it restores the list |
| HandlerList.ClearSilences | src/main/java/org/dominokit/domino/ui/datepicker/DatePicker.java:346-349 | After clearing, a notification round makes no call |
| HandlerList.RemovedHandlerCallCount | src/main/java/org/dominokit/domino/ui/datepicker/DatePicker.java:317-320 | Removal lowers the handler's count by one. A handler registered at most once gets no call after removal |
| DatePicker.NavigateBefore | src/main/java/org/dominokit/domino/ui/datepicker/DatePicker.java:214-222 | Keeps the month in 0..11 and moves exactly one month back in the continuous month numbering, so January wraps to December of the previous year |
| DatePicker.NavigateNext | src/main/java/org/dominokit/domino/ui/datepicker/DatePicker.java:230-238 | Keeps the month in 0..11 and moves exactly one month forward, so December wraps to January of the next year |
| DatePicker.NavigateMatchesMonthIndex | src/main/java/org/dominokit/domino/ui/datepicker/DatePicker.java:214-238 | Next and before agree with the reference successor and predecessor computed by division and remainder by 12 |
| DatePicker.NavigateRoundTrip | src/main/java/org/dominokit/domino/ui/datepicker/DatePicker.java:214-243 | next-then-before and before-then-next both return the original (year, month) |
| DatePicker.NextNAdvancesIndex | src/main/java/org/dominokit/domino/ui/datepicker/DatePicker.java:230-243 | n presses of next keep the month valid and advance the month numbering by exactly n |
| DatePicker.TwelveNextsAdvanceOneYear | src/main/java/org/dominokit/domino/ui/datepicker/DatePicker.java:233-235 | Twelve presses of next reach the same month of the following year |
| DatePicker.DayNameIndex | src/main/java/org/dominokit/domino/ui/datepicker/DatePicker.java:405-408 | For weekday and first day of week in 0..6, the index is in 0..6 and equals their sum mod 7 |
| DatePicker.DayNameIndexIsRotation | src/main/java/org/dominokit/domino/ui/datepicker/DatePicker.java:405-409 | For a fixed first day of week, distinct weekdays get distinct day-name indices |
| DatePicker.NavigateBeforeAsWritten | src/main/java/org/dominokit/domino/ui/datepicker/DatePicker.java:214-222 | The before button as written, stepping the year with setYear, keeps the month in 0..11 |
| DatePicker.NavigateNextAsWritten | src/main/java/org/dominokit/domino/ui/datepicker/DatePicker.java:230-238 | The next button as written, stepping the year with setYear, keeps the month in 0..11 |
| DatePicker.NavigateAsWrittenAgrees | src/main/java/org/dominokit/domino/ui/datepicker/DatePicker.java:214-238 | The buttons as written, which step the year with setYear, agree with plain month stepping exactly when the target year lies outside 0..99 |
| DatePicker.SelectYear | src/main/java/org/dominokit/domino/ui/datepicker/DatePicker.java:162-166 | Choosing a year shows that year and keeps the month |
| DatePicker.SelectYearAsWritten | src/main/java/org/dominokit/domino/ui/datepicker/DatePicker.java:162-166 | Choosing a year as written, through setYear, keeps the month |
| DatePicker.SelectYearAsWrittenAgrees | src/main/java/org/dominokit/domino/ui/datepicker/DatePicker.java:162-166 | The selection as written shows the chosen year exactly when it lies outside 0..99; choosing 70 gives 1970 |
| DatePicker.NavigateBeforeFromYear100 | src/main/java/org/dominokit/domino/ui/datepicker/DatePicker.java:216-219 | From January of year 100, navigate before as written gives December 1999, while plain stepping gives December 99 |
| DatePicker.DefaultYearRange | src/main/java/org/dominokit/domino/ui/datepicker/DatePicker.java:78-82 | The default window contains the initial year, with exactly 50 years below it and 50 above |
| DatePicker.BuildYearSelector | src/main/java/org/dominokit/domino/ui/datepicker/DatePicker.java:155-161 | The options are exactly the years minYear..maxYear in ascending order, labelled with their decimal text (none for an empty range). An option is selected iff the year is in range, and the selected option holds that year |
| DatePicker.BuildMonthSelector | src/main/java/org/dominokit/domino/ui/datepicker/DatePicker.java:168-177 | Option k has value k and the k-th month name. An option is selected iff the month is an index of the names, and it is that month's option |
| DatePicker.DefaultYearSelector | src/main/java/org/dominokit/domino/ui/datepicker/DatePicker.java:74-86 | With the default bounds there are 101 year options, from year-50 to year+50, and the middle one (the initial year) is selected |

## Left out

- CSS class toggles and display changes (`slide-out-*`, `panel-open`,
  `ls-closed`, `l-fixed`, `setDisplay`), theming, `setLeftPanelSize`,
  `updateLeftPanel`, and the title, logo and content setters. These are
  rendering only.
- The MediaQuery subscription machinery. Breakpoint crossings are explicit
  events (`Layout.OnSmallAndDown`, `Layout.OnMediumAndUp`) with the Footer's
  auto-unfix setting and the autoFixLeftPanel request as inputs.
- The deferred `ElementUtil.onAttach` work and content padding and margin
  (`updateContentBottomPadding`, `updateContentMargin`). These are pixel
  measurements in the browser. The two branches of the small-and-down
  listener of `autoFixLeftPanel` make the same calls and are one transition.
  On medium-and-up, a panel that is not yet attached has `fixLeftPanelPosition`
  deferred until attachment: `Layout.OnMediumAndUp` models the attached
  branch, and the deferred call is the separate `FixLeft` operation of
  `LayoutProperties.Run`, which any run may place later.
- The Footer class is not part of this model. Its `isFixed()` and displayed
  state are the abstract fields `footerFixed` and `footerShown`. Their
  initial values are inputs of `Layout.Init`.
- Handlers are identities, not code. A handler call is an entry in the
  returned log. A handler that calls back into the layout while it is being
  notified (reentrancy) is not modelled.
- JavaScript Date semantics: day-of-month overflow in `setMonth` and
  `setYear`, millisecond timestamps and `new Date()`. Only the
  `(year, month)` pair is modelled. Years are unbounded integers; the Date
  range keeps them far from Java `int` overflow. The two-digit-year rule of
  `setYear` is modelled in the `AsWritten` members (see Findings).
- DatePicker.NavigateBefore / DatePicker.NavigateNext: these step the year
  plainly and do not apply the `setYear` mapping of 0..99 to 1900..1999; the
  code as written is `DatePicker.NavigateBeforeAsWritten` and
  `DatePicker.NavigateNextAsWritten`, and `DatePicker.NavigateAsWrittenAgrees`
  states exactly where the two differ.
- After navigating, the navigate handlers resynchronise the year and month
  select boxes (`setValue`, `selectAt`), and `updatePicker` sets the header
  texts. These depend on the Select widget and the locale data, which are
  not part of this model. Only the day-name index is modelled.
- The date-selection, day-clicked, close and clear handler lists all use the
  one `HandlerList` model. The date and locale passed to each handler are an
  abstract argument.
- DateTimeFormatInfo, i18n formatting, DatePickerMonth, the Button,
  ModalDialog and colour-scheme widgets, OrbitLoader (DOM construction only)
  and DoubleBox (floating-point parsing). These are foreign code or UI.

## Findings

| source | as written | input that shows it | evidently intended | confidence | as-written member | corrected member |
|---|---|---|---|---|---|---|
| src/main/java/org/dominokit/domino/ui/datepicker/DatePicker.java:216-219 | January steps back with `jsDate.setYear(getFullYear() - 1)`; `Date.prototype.setYear` (section B.2.4.2 of ECMA-262) reads 0..99 as 1900..1999 | January of year 100: navigate before gives December 1999 | December of year 99, as `setFullYear` would give | not executed; medium | DatePicker.NavigateBeforeAsWritten (DatePicker.NavigateBeforeFromYear100) | DatePicker.NavigateBefore (DatePicker.NavigateRoundTrip) |
| src/main/java/org/dominokit/domino/ui/datepicker/DatePicker.java:232-235 | December steps forward with `jsDate.setYear(getFullYear() + 1)` | December of year 98: navigate next gives January 1999 | January of year 99 | not executed; medium | DatePicker.NavigateNextAsWritten (DatePicker.NavigateAsWrittenAgrees) | DatePicker.NavigateNext (DatePicker.NavigateRoundTrip) |
| src/main/java/org/dominokit/domino/ui/datepicker/DatePicker.java:162-166 | The year select box sets the chosen year with `jsDate.setYear` | a default picker opened in year 120 offers year 70; choosing it gives 1970 | year 70 | not executed; medium | DatePicker.SelectYearAsWritten (DatePicker.SelectYearAsWrittenAgrees) | DatePicker.SelectYear |
