/** The panel, overlay and footer bookkeeping of the domino-ui `Layout`
    component, lifted out of its DOM plumbing.

    The state is the set of boolean fields the component keeps, plus the two
    observable flags of its `Footer` that the component reads and writes
    (`footerFixed` for `Footer.isFixed()`, `footerShown` for the footer's
    display). Every transition is a pure function returning the new state and
    the ordered log of left-panel handler calls it makes. CSS class toggles and
    display changes are rendering only and are not modelled. */
module Layout {
  import opened HandlerList

  datatype LayoutState<H> = LayoutState(
    leftPanelVisible: bool,
    rightPanelVisible: bool,
    overlayVisible: bool,
    leftPanelDisabled: bool,
    fixedLeftPanel: bool,
    footerVisible: bool,
    /** Set when a breakpoint auto-unfixed the footer; never cleared. */
    fixedFooter: bool,
    /** Footer.isFixed(): whether the footer is currently rendered fixed. */
    footerFixed: bool,
    /** Whether the footer element is displayed (Footer.show / Footer.hide). */
    footerShown: bool,
    /** Left-panel state handlers, in registration order. */
    leftPanelHandlers: seq<H>
  )

  /** A transition's outcome: the new state and the handler calls it made. */
  datatype Step<H> = Step(state: LayoutState<H>, calls: seq<Call<H, bool>>)

  /** The freshly constructed layout: every field false, no handler. The
      Footer's own initial flags belong to the Footer class and are inputs. */
  function Init<H>(footerFixed: bool, footerShown: bool): (l: LayoutState<H>)
    ensures !l.leftPanelVisible && !l.rightPanelVisible && !l.overlayVisible
    ensures !l.leftPanelDisabled && !l.fixedLeftPanel
    ensures !l.footerVisible && !l.fixedFooter && l.leftPanelHandlers == []
  {
    LayoutState(false, false, false, false, false, false, false, footerFixed, footerShown, [])
  }

  /** A transition that calls no handler. */
  function Silent<H>(l: LayoutState<H>): Step<H> {
    Step(l, [])
  }

  /** Runs `next`, computed from `first`'s state, after `first`. */
  function Then<H>(first: Step<H>, next: Step<H>): Step<H> {
    Step(next.state, first.calls + next.calls)
  }

  /** `a` and `b` agree on the footer flags and the handler list. */
  ghost predicate SameFooterAndHandlers<H>(a: LayoutState<H>, b: LayoutState<H>) {
    && a.footerVisible == b.footerVisible
    && a.fixedFooter == b.fixedFooter
    && a.footerFixed == b.footerFixed
    && a.footerShown == b.footerShown
    && a.leftPanelHandlers == b.leftPanelHandlers
  }

  /** `a` and `b` agree on every panel and overlay flag. */
  ghost predicate SamePanels<H>(a: LayoutState<H>, b: LayoutState<H>) {
    && a.leftPanelVisible == b.leftPanelVisible
    && a.rightPanelVisible == b.rightPanelVisible
    && a.overlayVisible == b.overlayVisible
    && a.leftPanelDisabled == b.leftPanelDisabled
    && a.fixedLeftPanel == b.fixedLeftPanel
  }

  // ---------------------------------------------------------------- panels

  function HideOverlay<H>(l: LayoutState<H>): LayoutState<H> {
    l.(overlayVisible := false)
  }

  function ShowOverlay<H>(l: LayoutState<H>): LayoutState<H> {
    l.(overlayVisible := true)
  }

  /** Hides the right panel and the overlay, whatever the left panel shows. */
  function HideRightPanel<H>(l: LayoutState<H>): (r: Step<H>)
    ensures !r.state.rightPanelVisible && !r.state.overlayVisible
    ensures r.state.leftPanelVisible == l.leftPanelVisible
    ensures r.state.leftPanelDisabled == l.leftPanelDisabled
    ensures r.state.fixedLeftPanel == l.fixedLeftPanel
    ensures SameFooterAndHandlers(l, r.state) && r.calls == []
  {
    Silent(HideOverlay(l.(rightPanelVisible := false)))
  }

  /** Hides the left panel unless it is fixed or disabled; when it acts, every
      handler is told `false`, even if the panel was already hidden. */
  function HideLeftPanel<H>(l: LayoutState<H>): (r: Step<H>)
    ensures l.fixedLeftPanel || l.leftPanelDisabled ==> r == Step(l, [])
    ensures !l.fixedLeftPanel && !l.leftPanelDisabled ==>
              && !r.state.leftPanelVisible && !r.state.overlayVisible
              && r.state.rightPanelVisible == l.rightPanelVisible
              && !r.state.fixedLeftPanel && !r.state.leftPanelDisabled
              && SameFooterAndHandlers(l, r.state)
              && r.calls == Notify(l.leftPanelHandlers, false)
  {
    if !l.fixedLeftPanel && !l.leftPanelDisabled then
      Step(HideOverlay(l.(leftPanelVisible := false)), Notify(l.leftPanelHandlers, false))
    else
      Silent(l)
  }

  /** Shows the left panel unless it is disabled, hiding a visible right panel
      first; when it acts, every handler is told `true`, even if the panel was
      already visible. */
  function ShowLeftPanel<H>(l: LayoutState<H>): (r: Step<H>)
    ensures l.leftPanelDisabled ==> r == Step(l, [])
    ensures !l.leftPanelDisabled ==>
              && r.state.leftPanelVisible && !r.state.rightPanelVisible && r.state.overlayVisible
              && r.state.fixedLeftPanel == l.fixedLeftPanel && !r.state.leftPanelDisabled
              && SameFooterAndHandlers(l, r.state)
              && r.calls == Notify(l.leftPanelHandlers, true)
  {
    if !l.leftPanelDisabled then
      var before := if l.rightPanelVisible then HideRightPanel(l).state else l;
      Step(ShowOverlay(before.(leftPanelVisible := true)), Notify(before.leftPanelHandlers, true))
    else
      Silent(l)
  }

  /** Flips the left panel, except that a fixed visible panel stays open and
      a disabled panel stays closed; handlers hear the new visibility. */
  function ToggleLeftPanel<H>(l: LayoutState<H>): (r: Step<H>)
    ensures l.leftPanelDisabled || (l.leftPanelVisible && l.fixedLeftPanel) ==> r == Step(l, [])
    ensures !l.leftPanelDisabled && !(l.leftPanelVisible && l.fixedLeftPanel) ==>
              && r.state.leftPanelVisible == !l.leftPanelVisible
              && r.state.overlayVisible == !l.leftPanelVisible
              && r.calls == Notify(l.leftPanelHandlers, !l.leftPanelVisible)
              && r.state.fixedLeftPanel == l.fixedLeftPanel
              && r.state.leftPanelDisabled == l.leftPanelDisabled
              && (!l.leftPanelVisible ==> !r.state.rightPanelVisible)
              && (l.leftPanelVisible ==> r.state.rightPanelVisible == l.rightPanelVisible)
              && SameFooterAndHandlers(l, r.state)
  {
    if l.leftPanelVisible then HideLeftPanel(l) else ShowLeftPanel(l)
  }

  /** Shows the right panel and the overlay; a visible left panel is hidden
      first, which does nothing when it is fixed. */
  function ShowRightPanel<H>(l: LayoutState<H>): (r: Step<H>)
    ensures r.state.rightPanelVisible && r.state.overlayVisible
    ensures r.state.leftPanelVisible <==> l.leftPanelVisible && (l.fixedLeftPanel || l.leftPanelDisabled)
    ensures r.state.fixedLeftPanel == l.fixedLeftPanel
    ensures r.state.leftPanelDisabled == l.leftPanelDisabled
    ensures SameFooterAndHandlers(l, r.state)
    ensures r.calls == if l.leftPanelVisible then HideLeftPanel(l).calls else []
  {
    var before := if l.leftPanelVisible then HideLeftPanel(l) else Silent(l);
    Step(ShowOverlay(before.state.(rightPanelVisible := true)), before.calls)
  }

  /** Flips the right panel; the overlay follows it. */
  function ToggleRightPanel<H>(l: LayoutState<H>): (r: Step<H>)
    ensures r.state.rightPanelVisible == !l.rightPanelVisible
    ensures r.state.overlayVisible == !l.rightPanelVisible
    ensures l.rightPanelVisible ==> r.calls == [] && r.state.leftPanelVisible == l.leftPanelVisible
    ensures !l.rightPanelVisible ==>
              && (r.state.leftPanelVisible <==> l.leftPanelVisible && (l.fixedLeftPanel || l.leftPanelDisabled))
              && r.calls == if l.leftPanelVisible then HideLeftPanel(l).calls else []
    ensures r.state.fixedLeftPanel == l.fixedLeftPanel
    ensures r.state.leftPanelDisabled == l.leftPanelDisabled
    ensures SameFooterAndHandlers(l, r.state)
  {
    if l.rightPanelVisible then HideRightPanel(l) else ShowRightPanel(l)
  }

  /** The overlay click: hide the right panel, then the left one, then the
      overlay. */
  function HidePanels<H>(l: LayoutState<H>): (r: Step<H>)
    ensures !r.state.rightPanelVisible && !r.state.overlayVisible
    ensures r.state.leftPanelVisible <==> l.leftPanelVisible && (l.fixedLeftPanel || l.leftPanelDisabled)
    ensures r.state.fixedLeftPanel == l.fixedLeftPanel
    ensures r.state.leftPanelDisabled == l.leftPanelDisabled
    ensures SameFooterAndHandlers(l, r.state)
    ensures r.calls == HideLeftPanel(l).calls
  {
    var right := HideRightPanel(l);
    var left := Then(right, HideLeftPanel(right.state));
    Step(HideOverlay(left.state), left.calls)
  }

  /** Pins the left panel open: shows it (notifying `true`), then hides the
      overlay, then sets the fixed flag. Does nothing when disabled. */
  function FixLeftPanelPosition<H>(l: LayoutState<H>): (r: Step<H>)
    ensures l.leftPanelDisabled ==> r == Step(l, [])
    ensures !l.leftPanelDisabled ==>
              && r.state.leftPanelVisible && r.state.fixedLeftPanel
              && !r.state.overlayVisible && !r.state.rightPanelVisible
              && !r.state.leftPanelDisabled
              && SameFooterAndHandlers(l, r.state)
              && r.calls == Notify(l.leftPanelHandlers, true)
  {
    if !l.leftPanelDisabled then
      var shown := ShowLeftPanel(l);
      Step(HideOverlay(shown.state).(fixedLeftPanel := true), shown.calls)
    else
      Silent(l)
  }

  /** Clears the fixed flag without touching any visibility. Does nothing
      when disabled. */
  function UnfixLeftPanelPosition<H>(l: LayoutState<H>): (r: Step<H>)
    ensures l.leftPanelDisabled ==> r == Step(l, [])
    ensures !l.leftPanelDisabled ==> r == Step(l.(fixedLeftPanel := false), [])
  {
    if !l.leftPanelDisabled then Silent(l.(fixedLeftPanel := false)) else Silent(l)
  }

  /** Unfixes, hides (both no-ops if already disabled), then sets disabled. */
  function DisableLeftPanel<H>(l: LayoutState<H>): (r: Step<H>)
    ensures r.state.leftPanelDisabled
    ensures l.leftPanelDisabled ==> r == Step(l, [])
    ensures !l.leftPanelDisabled ==>
              && !r.state.leftPanelVisible && !r.state.fixedLeftPanel && !r.state.overlayVisible
              && r.state.rightPanelVisible == l.rightPanelVisible
              && SameFooterAndHandlers(l, r.state)
              && r.calls == Notify(l.leftPanelHandlers, false)
  {
    var unfixed := UnfixLeftPanelPosition(l);
    var hidden := Then(unfixed, HideLeftPanel(unfixed.state));
    Step(hidden.state.(leftPanelDisabled := true), hidden.calls)
  }

  /** Clears the disabled flag and nothing else. */
  function EnableLeftPanel<H>(l: LayoutState<H>): (r: Step<H>)
    ensures !r.state.leftPanelDisabled && r.calls == []
    ensures r.state.(leftPanelDisabled := l.leftPanelDisabled) == l
  {
    Silent(l.(leftPanelDisabled := false))
  }

  // ---------------------------------------------------------------- handlers

  /** onLeftPanelStateChanged: appends a handler. */
  function OnLeftPanelStateChanged<H>(l: LayoutState<H>, h: H): (r: LayoutState<H>)
    ensures r.leftPanelHandlers == l.leftPanelHandlers + [h]
    ensures r.(leftPanelHandlers := l.leftPanelHandlers) == l
  {
    l.(leftPanelHandlers := Add(l.leftPanelHandlers, h))
  }

  /** removeLeftPanelHandler: removes the first occurrence of a handler. */
  function RemoveLeftPanelHandler<H(==)>(l: LayoutState<H>, h: H): (r: LayoutState<H>)
    ensures h !in l.leftPanelHandlers ==> r == l
    ensures |r.leftPanelHandlers| == |l.leftPanelHandlers| - (if h in l.leftPanelHandlers then 1 else 0)
    ensures h in l.leftPanelHandlers ==>
              var i := IndexOf(l.leftPanelHandlers, h);
              r.leftPanelHandlers == l.leftPanelHandlers[..i] + l.leftPanelHandlers[i + 1..]
    ensures multiset(r.leftPanelHandlers) == multiset(l.leftPanelHandlers) - multiset{h}
    ensures r.(leftPanelHandlers := l.leftPanelHandlers) == l
  {
    var hs := RemoveFirst(l.leftPanelHandlers, h);
    RemoveFirstMultiset(l.leftPanelHandlers, h);
    assert h in l.leftPanelHandlers ==> |hs| == |l.leftPanelHandlers| - 1;
    l.(leftPanelHandlers := hs)
  }

  // ---------------------------------------------------------------- footer

  /** fixFooter: the footer is rendered fixed (padding updates not modelled). */
  function FixFooter<H>(l: LayoutState<H>): (r: LayoutState<H>)
    ensures r.footerFixed && r.(footerFixed := l.footerFixed) == l
  {
    l.(footerFixed := true)
  }

  /** unfixFooter: the footer is no longer rendered fixed. */
  function UnfixFooter<H>(l: LayoutState<H>): (r: LayoutState<H>)
    ensures !r.footerFixed && r.(footerFixed := l.footerFixed) == l
  {
    l.(footerFixed := false)
  }

  /** showFooter: displays the footer and records it as visible. */
  function ShowFooter<H>(l: LayoutState<H>): (r: LayoutState<H>)
    ensures r.footerShown && r.footerVisible
    ensures r.(footerShown := l.footerShown, footerVisible := l.footerVisible) == l
  {
    l.(footerShown := true, footerVisible := true)
  }

  /** hideFooter: hides the footer element but leaves `footerVisible` set. */
  function HideFooter<H>(l: LayoutState<H>): (r: LayoutState<H>)
    ensures !r.footerShown && r.footerVisible == l.footerVisible
    ensures r.(footerShown := l.footerShown) == l
  {
    l.(footerShown := false)
  }

  /** The first small-and-down listener: a fixed footer is remembered and
      unfixed when the footer auto-unfixes on small screens. */
  function SmallAndDownWhenFixed<H>(l: LayoutState<H>, autoUnfix: bool): LayoutState<H> {
    if autoUnfix && l.footerFixed then UnfixFooter(l.(fixedFooter := true)) else l
  }

  /** The second small-and-down listener: the same for a visible footer. */
  function SmallAndDownWhenVisible<H>(l: LayoutState<H>, autoUnfix: bool): LayoutState<H> {
    if autoUnfix && l.footerVisible then UnfixFooter(l.(fixedFooter := true)) else l
  }

  /** Entering the small-and-down breakpoint: both footer listeners, in the
      order the constructor registers them. `autoUnfix` is the footer's
      auto-unfix-for-small-screens setting. */
  function FooterOnSmallAndDown<H>(l: LayoutState<H>, autoUnfix: bool): (r: LayoutState<H>)
    ensures autoUnfix && (l.footerFixed || l.footerVisible) ==>
              r == l.(fixedFooter := true, footerFixed := false)
    ensures !(autoUnfix && (l.footerFixed || l.footerVisible)) ==> r == l
  {
    SmallAndDownWhenVisible(SmallAndDownWhenFixed(l, autoUnfix), autoUnfix)
  }

  /** Entering the medium-and-up breakpoint: the footer is re-fixed only when
      it auto-unfixes, was remembered as fixed and is recorded visible. */
  function FooterOnMediumAndUp<H>(l: LayoutState<H>, autoUnfix: bool): (r: LayoutState<H>)
    ensures autoUnfix && l.fixedFooter && l.footerVisible ==> r == l.(footerFixed := true)
    ensures !(autoUnfix && l.fixedFooter && l.footerVisible) ==> r == l
  {
    if autoUnfix && l.fixedFooter && l.footerVisible then FixFooter(l) else l
  }

  // ---------------------------------------------------------------- auto-fix

  /** The small-and-down listener `autoFixLeftPanel` registers: unfix the
      panel, then hide it. */
  function AutoFixOnSmallAndDown<H>(l: LayoutState<H>): (r: Step<H>)
    ensures l.leftPanelDisabled ==> r == Step(l, [])
    ensures !l.leftPanelDisabled ==>
              && !r.state.leftPanelVisible && !r.state.fixedLeftPanel && !r.state.overlayVisible
              && r.state.rightPanelVisible == l.rightPanelVisible
              && SameFooterAndHandlers(l, r.state)
              && r.calls == Notify(l.leftPanelHandlers, false)
  {
    var unfixed := UnfixLeftPanelPosition(l);
    Then(unfixed, HideLeftPanel(unfixed.state))
  }

  /** A whole small-and-down breakpoint crossing: the footer listeners
      registered by the constructor, then the left-panel listener when
      `autoFixLeftPanel` was requested. */
  function OnSmallAndDown<H>(l: LayoutState<H>, autoUnfix: bool, autoFixLeft: bool): (r: Step<H>)
    ensures SameFooterAndHandlers(FooterOnSmallAndDown(l, autoUnfix), r.state)
    ensures !autoFixLeft || l.leftPanelDisabled ==> SamePanels(l, r.state) && r.calls == []
    ensures autoFixLeft && !l.leftPanelDisabled ==>
              && !r.state.leftPanelVisible && !r.state.fixedLeftPanel && !r.state.overlayVisible
              && r.state.rightPanelVisible == l.rightPanelVisible
              && !r.state.leftPanelDisabled
              && r.calls == Notify(l.leftPanelHandlers, false)
  {
    var footer := FooterOnSmallAndDown(l, autoUnfix);
    if autoFixLeft then AutoFixOnSmallAndDown(footer) else Silent(footer)
  }

  /** A whole medium-and-up breakpoint crossing, in the same order; the
      listener `autoFixLeftPanel` registers fixes the left panel. */
  function OnMediumAndUp<H>(l: LayoutState<H>, autoUnfix: bool, autoFixLeft: bool): (r: Step<H>)
    ensures SameFooterAndHandlers(FooterOnMediumAndUp(l, autoUnfix), r.state)
    ensures !autoFixLeft || l.leftPanelDisabled ==> SamePanels(l, r.state) && r.calls == []
    ensures autoFixLeft && !l.leftPanelDisabled ==>
              && r.state.leftPanelVisible && r.state.fixedLeftPanel
              && !r.state.overlayVisible && !r.state.rightPanelVisible
              && !r.state.leftPanelDisabled
              && r.calls == Notify(l.leftPanelHandlers, true)
  {
    var footer := FooterOnMediumAndUp(l, autoUnfix);
    if autoFixLeft then FixLeftPanelPosition(footer) else Silent(footer)
  }
}
