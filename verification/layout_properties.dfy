/** Properties of the Layout state machine over arbitrary call sequences:
    the invariants every public operation keeps, what fixing and disabling
    guarantee afterwards, the footer breakpoint round trip, and the places
    where the component deliberately departs from "overlay iff a panel is
    open" and "at most one panel open". */
module LayoutProperties {
  import opened HandlerList
  import opened Layout

  /** Every public entry point of the component, with the breakpoint
      crossings as events carrying the footer's auto-unfix setting and whether
      `autoFixLeftPanel` was requested. */
  datatype Op<H> =
    | ShowLeft | HideLeft | ToggleLeft
    | ShowRight | HideRight | ToggleRight
    | OverlayClick
    | FixLeft | UnfixLeft | DisableLeft | EnableLeft
    | AddHandler(h: H) | RemoveHandler(h: H)
    | ShowFooterOp | HideFooterOp | FixFooterOp | UnfixFooterOp
    | SmallAndDown(autoUnfix: bool, autoFixLeft: bool)
    | MediumAndUp(autoUnfix: bool, autoFixLeft: bool)

  function Apply<H(==)>(l: LayoutState<H>, op: Op<H>): Step<H> {
    match op
    case ShowLeft => ShowLeftPanel(l)
    case HideLeft => HideLeftPanel(l)
    case ToggleLeft => ToggleLeftPanel(l)
    case ShowRight => ShowRightPanel(l)
    case HideRight => HideRightPanel(l)
    case ToggleRight => ToggleRightPanel(l)
    case OverlayClick => HidePanels(l)
    case FixLeft => FixLeftPanelPosition(l)
    case UnfixLeft => UnfixLeftPanelPosition(l)
    case DisableLeft => DisableLeftPanel(l)
    case EnableLeft => EnableLeftPanel(l)
    case AddHandler(h) => Silent(OnLeftPanelStateChanged(l, h))
    case RemoveHandler(h) => Silent(RemoveLeftPanelHandler(l, h))
    case ShowFooterOp => Silent(ShowFooter(l))
    case HideFooterOp => Silent(HideFooter(l))
    case FixFooterOp => Silent(FixFooter(l))
    case UnfixFooterOp => Silent(UnfixFooter(l))
    case SmallAndDown(a, f) => OnSmallAndDown(l, a, f)
    case MediumAndUp(a, f) => OnMediumAndUp(l, a, f)
  }

  /** The state after a sequence of operations, and all calls made on the way. */
  function Run<H(==)>(l: LayoutState<H>, ops: seq<Op<H>>): Step<H>
    decreases |ops|
  {
    if |ops| == 0 then Silent(l)
    else
      var first := Apply(l, ops[0]);
      Then(first, Run(first.state, ops[1..]))
  }

  /** The invariants the component keeps: the overlay is only shown while some
      panel is; a fixed left panel is visible; a disabled one is neither
      visible nor fixed. */
  ghost predicate Inv<H>(l: LayoutState<H>) {
    && (l.overlayVisible ==> l.leftPanelVisible || l.rightPanelVisible)
    && (l.fixedLeftPanel ==> l.leftPanelVisible)
    && (l.leftPanelDisabled ==> !l.leftPanelVisible && !l.fixedLeftPanel)
  }

  lemma InitInv<H>(footerFixed: bool, footerShown: bool)
    ensures Inv(Init<H>(footerFixed, footerShown))
  {
  }

  /** The left-panel operations keep the invariants. */
  lemma LeftPanelOpsPreserveInv<H>(l: LayoutState<H>)
    requires Inv(l)
    ensures Inv(ShowLeftPanel(l).state) && Inv(HideLeftPanel(l).state)
    ensures Inv(FixLeftPanelPosition(l).state) && Inv(UnfixLeftPanelPosition(l).state)
    ensures Inv(DisableLeftPanel(l).state) && Inv(EnableLeftPanel(l).state)
  {
  }

  /** The right-panel operations and the overlay click keep the invariants. */
  lemma RightPanelOpsPreserveInv<H>(l: LayoutState<H>)
    requires Inv(l)
    ensures Inv(ShowRightPanel(l).state) && Inv(HideRightPanel(l).state)
    ensures Inv(HidePanels(l).state)
  {
  }

  /** Both breakpoint crossings keep the invariants, whatever the footer
      settings and whether `autoFixLeftPanel` was requested. */
  lemma BreakpointsPreserveInv<H>(l: LayoutState<H>, autoUnfix: bool, autoFixLeft: bool)
    requires Inv(l)
    ensures Inv(OnSmallAndDown(l, autoUnfix, autoFixLeft).state)
    ensures Inv(OnMediumAndUp(l, autoUnfix, autoFixLeft).state)
  {
  }

  /** Every single operation keeps the invariants. */
  lemma ApplyPreservesInv<H>(l: LayoutState<H>, op: Op<H>)
    requires Inv(l)
    ensures Inv(Apply(l, op).state)
  {
    match op
    case ShowLeft | HideLeft | FixLeft | UnfixLeft | DisableLeft | EnableLeft =>
      LeftPanelOpsPreserveInv(l);
    case ToggleLeft =>
      LeftPanelOpsPreserveInv(l);
    case ShowRight | HideRight | OverlayClick =>
      RightPanelOpsPreserveInv(l);
    case ToggleRight =>
      RightPanelOpsPreserveInv(l);
    case SmallAndDown(a, f) =>
      BreakpointsPreserveInv(l, a, f);
    case MediumAndUp(a, f) =>
      BreakpointsPreserveInv(l, a, f);
    case _ =>
  }

  /** From any state satisfying the invariants, and so from the initial one,
      every call sequence ends in a state satisfying them. */
  lemma {:induction false} RunPreservesInv<H>(l: LayoutState<H>, ops: seq<Op<H>>)
    requires Inv(l)
    ensures Inv(Run(l, ops).state)
    decreases |ops|
  {
    if |ops| > 0 {
      ApplyPreservesInv(l, ops[0]);
      RunPreservesInv(Apply(l, ops[0]).state, ops[1..]);
    }
  }

  lemma ReachableInv<H>(footerFixed: bool, footerShown: bool, ops: seq<Op<H>>)
    ensures Inv(Run(Init<H>(footerFixed, footerShown), ops).state)
  {
    InitInv<H>(footerFixed, footerShown);
    RunPreservesInv(Init<H>(footerFixed, footerShown), ops);
  }

  // ------------------------------------------------------- disabled and fixed

  /** Only enabling clears the disabled flag. */
  predicate Enables<H>(op: Op<H>) {
    op.EnableLeft?
  }

  /** One operation other than enabling keeps a disabled panel disabled. */
  lemma ApplyKeepsDisabled<H>(l: LayoutState<H>, op: Op<H>)
    requires Inv(l) && l.leftPanelDisabled && !Enables(op)
    ensures Apply(l, op).state.leftPanelDisabled
  {
    match op
    case ToggleLeft =>
    case ToggleRight =>
    case SmallAndDown(a, f) =>
      assert FooterOnSmallAndDown(l, a).leftPanelDisabled;
    case MediumAndUp(a, f) =>
      assert FooterOnMediumAndUp(l, a).leftPanelDisabled;
    case _ =>
  }

  /** A disabled left panel stays hidden, and disabled, under any sequence of
      calls that does not enable it again: show, toggle, fix and the
      breakpoint listeners all leave it alone. */
  lemma {:induction false} DisabledStaysHidden<H>(l: LayoutState<H>, ops: seq<Op<H>>)
    requires Inv(l) && l.leftPanelDisabled
    requires forall i :: 0 <= i < |ops| ==> !Enables(ops[i])
    ensures Run(l, ops).state.leftPanelDisabled
    ensures !Run(l, ops).state.leftPanelVisible
    decreases |ops|
  {
    if |ops| > 0 {
      assert !Enables(ops[0]);
      ApplyPreservesInv(l, ops[0]);
      ApplyKeepsDisabled(l, ops[0]);
      DisabledStaysHidden(Apply(l, ops[0]).state, ops[1..]);
    }
  }

  /** The calls that can clear the fixed flag: unfixing, disabling, and the
      small-and-down listener of `autoFixLeftPanel`. */
  predicate Unfixes<H>(op: Op<H>) {
    op.UnfixLeft? || op.DisableLeft? || (op.SmallAndDown? && op.autoFixLeft)
  }

  /** One operation that does not unfix keeps a fixed panel fixed. */
  lemma ApplyKeepsFixed<H>(l: LayoutState<H>, op: Op<H>)
    requires Inv(l) && l.fixedLeftPanel && !Unfixes(op)
    ensures Apply(l, op).state.fixedLeftPanel
  {
    match op
    case ToggleLeft =>
    case ToggleRight =>
    case SmallAndDown(a, f) =>
      assert FooterOnSmallAndDown(l, a).fixedLeftPanel;
    case MediumAndUp(a, f) =>
      assert FooterOnMediumAndUp(l, a).fixedLeftPanel;
    case _ =>
  }

  /** A fixed left panel stays fixed and visible, through hide, toggle and the
      overlay click, until something unfixes it. */
  lemma {:induction false} FixedStaysVisible<H>(l: LayoutState<H>, ops: seq<Op<H>>)
    requires Inv(l) && l.fixedLeftPanel
    requires forall i :: 0 <= i < |ops| ==> !Unfixes(ops[i])
    ensures Run(l, ops).state.fixedLeftPanel
    ensures Run(l, ops).state.leftPanelVisible
    decreases |ops|
  {
    if |ops| > 0 {
      assert !Unfixes(ops[0]);
      ApplyPreservesInv(l, ops[0]);
      ApplyKeepsFixed(l, ops[0]);
      FixedStaysVisible(Apply(l, ops[0]).state, ops[1..]);
    }
  }

  /** Hide and toggle on a fixed panel change nothing and notify nobody. */
  lemma FixedIgnoresHide<H>(l: LayoutState<H>)
    requires Inv(l) && l.fixedLeftPanel
    ensures HideLeftPanel(l) == Step(l, [])
    ensures ToggleLeftPanel(l) == Step(l, [])
  {
  }

  /** Show and toggle on a disabled panel change nothing and notify nobody. */
  lemma DisabledIgnoresShow<H>(l: LayoutState<H>)
    requires Inv(l) && l.leftPanelDisabled
    ensures ShowLeftPanel(l) == Step(l, [])
    ensures ToggleLeftPanel(l) == Step(l, [])
  {
  }

  /** Showing the left panel twice notifies the handlers twice: notification is
      not edge-triggered. */
  lemma ShowLeftTwiceNotifiesTwice<H>(l: LayoutState<H>)
    requires !l.leftPanelDisabled
    ensures var first := ShowLeftPanel(l);
            var second := ShowLeftPanel(first.state);
            second.state == first.state
            && Then(first, second).calls ==
               Notify(l.leftPanelHandlers, true) + Notify(l.leftPanelHandlers, true)
  {
  }

  /** A handler added after the others is notified last on every show. */
  lemma NewHandlerNotifiedLast<H>(l: LayoutState<H>, h: H)
    requires !l.leftPanelDisabled
    ensures ShowLeftPanel(OnLeftPanelStateChanged(l, h)).calls ==
            ShowLeftPanel(l).calls + [Call(h, true)]
  {
    NotifyAfterAdd(l.leftPanelHandlers, h, true);
  }

  // ------------------------------------------------------- departures

  /** The overlay is not the disjunction of the panels: hiding the right
      panel clears the overlay even though the left panel stays visible. */
  lemma OverlayClearedWhileLeftVisible<H>(l: LayoutState<H>)
    requires Inv(l) && l.leftPanelVisible && !l.fixedLeftPanel && l.rightPanelVisible
    ensures var r := HideRightPanel(l).state;
            r.leftPanelVisible && !r.rightPanelVisible && !r.overlayVisible
  {
  }

  /** Showing the right panel does not hide a fixed left panel, so both panels
      end up visible; from the initial state `fix` then `showRight` does it. */
  lemma BothPanelsVisibleWhenFixed<H>(footerFixed: bool, footerShown: bool)
    ensures var r := Run(Init<H>(footerFixed, footerShown), [FixLeft, ShowRight]).state;
            r.leftPanelVisible && r.rightPanelVisible && r.overlayVisible && r.fixedLeftPanel
  {
  }

  /** Fixing the left panel shows it without the overlay. */
  lemma FixedPanelHasNoOverlay<H>(footerFixed: bool, footerShown: bool)
    ensures var r := Run(Init<H>(footerFixed, footerShown), [ShowRight, FixLeft]).state;
            r.leftPanelVisible && !r.rightPanelVisible && !r.overlayVisible
  {
  }

  // ------------------------------------------------------- scenarios

  /** show left, show right, hide right, from the initial state. */
  lemma ScenarioLeftRightHide<H>(footerFixed: bool, footerShown: bool)
    ensures var a := Run(Init<H>(footerFixed, footerShown), [ShowLeft]).state;
            a.leftPanelVisible && a.overlayVisible
    ensures var b := Run(Init<H>(footerFixed, footerShown), [ShowLeft, ShowRight]).state;
            !b.leftPanelVisible && b.rightPanelVisible && b.overlayVisible
    ensures var c := Run(Init<H>(footerFixed, footerShown), [ShowLeft, ShowRight, HideRight]).state;
            !c.leftPanelVisible && !c.rightPanelVisible && !c.overlayVisible
  {
  }

  /** disable, enable, show: the panel is shown again. */
  lemma ScenarioDisableEnableShow<H>(footerFixed: bool, footerShown: bool)
    ensures Run(Init<H>(footerFixed, footerShown), [DisableLeft, EnableLeft, ShowLeft]).state.leftPanelVisible
  {
  }

  // ------------------------------------------------------- footer

  /** The breakpoint rules touch only the footer flags. */
  lemma FooterEventsLeavePanels<H>(l: LayoutState<H>, autoUnfix: bool)
    ensures SamePanels(l, FooterOnSmallAndDown(l, autoUnfix))
    ensures SamePanels(l, FooterOnMediumAndUp(l, autoUnfix))
    ensures FooterOnSmallAndDown(l, autoUnfix).leftPanelHandlers == l.leftPanelHandlers
    ensures FooterOnMediumAndUp(l, autoUnfix).leftPanelHandlers == l.leftPanelHandlers
  {
  }

  /** `fixedFooter` is never reset by any operation. */
  lemma ApplyKeepsFixedFooter<H>(l: LayoutState<H>, op: Op<H>)
    requires l.fixedFooter
    ensures Apply(l, op).state.fixedFooter
  {
    match op
    case ToggleLeft =>
    case ToggleRight =>
    case SmallAndDown(a, f) =>
      assert FooterOnSmallAndDown(l, a).fixedFooter;
    case MediumAndUp(a, f) =>
      assert FooterOnMediumAndUp(l, a).fixedFooter;
    case _ =>
  }

  lemma {:induction false} FixedFooterNeverReset<H>(l: LayoutState<H>, ops: seq<Op<H>>)
    requires l.fixedFooter
    ensures Run(l, ops).state.fixedFooter
    decreases |ops|
  {
    if |ops| > 0 {
      ApplyKeepsFixedFooter(l, ops[0]);
      FixedFooterNeverReset(Apply(l, ops[0]).state, ops[1..]);
    }
  }

  /** A shown, fixed footer that auto-unfixes is unfixed when the screen
      becomes small and fixed again when it grows back. */
  lemma FooterBreakpointRoundTrip<H>(l: LayoutState<H>)
    requires l.footerFixed && l.footerVisible
    ensures var small := FooterOnSmallAndDown(l, true);
            !small.footerFixed && small.fixedFooter
            && FooterOnMediumAndUp(small, true) == l.(fixedFooter := true)
  {
  }

  /** Hiding the footer leaves it recorded as visible, so a later
      medium-and-up crossing still re-fixes it after a small-and-down one. */
  lemma HiddenFooterIsRefixed<H>(l: LayoutState<H>)
    requires l.footerVisible
    ensures var small := FooterOnSmallAndDown(HideFooter(l), true);
            FooterOnMediumAndUp(small, true).footerFixed
  {
  }

  /** The second small-and-down listener remembers any visible footer as
      fixed, even one that was never fixed, so a small-and-down crossing
      followed by a medium-and-up one fixes a footer that medium-and-up
      alone leaves unfixed. */
  lemma VisibleUnfixedFooterGetsFixed<H>(l: LayoutState<H>)
    requires l.footerVisible && !l.footerFixed && !l.fixedFooter
    ensures !FooterOnMediumAndUp(l, true).footerFixed
    ensures FooterOnMediumAndUp(FooterOnSmallAndDown(l, true), true).footerFixed
  {
  }

  /** The footer scenario: fix the left panel, show a fixed footer, cross to
      small and back to medium. */
  lemma ScenarioFooter<H>(footerShown: bool)
    ensures var small := Run(Init<H>(true, footerShown), [FixLeft, ShowFooterOp, SmallAndDown(true, false)]).state;
            !small.footerFixed && small.fixedFooter && small.leftPanelVisible
    ensures var back := Run(Init<H>(true, footerShown),
                            [FixLeft, ShowFooterOp, SmallAndDown(true, false), MediumAndUp(true, false)]).state;
            back.footerFixed && back.fixedLeftPanel
  {
  }
}
