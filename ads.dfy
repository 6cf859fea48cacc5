/** The ad coordinator of script.js: the pop-up overlay (`showPopup`,
    `closePopup`, its timer and scroll triggers, the outside-click rule) and
    the sticky bottom ad (`closeStickyAd`, `setupStickyAd`, the debounced
    resize handler).

    The page-lifetime state is a value of `AdState`; each handler is a
    function on it, and a run of the page is a sequence of `Event`s folded
    over it. The class `AdPage` holds the same state in mutable fields, as
    the script's module-level flags and the two elements do, and each of
    its methods is proved to perform exactly the matching transition. */
module Ads {

  /** The widest viewport, in CSS pixels, that counts as mobile. */
  const MobileBreakpoint := 768

  /** What a document click hit: the overlay element itself, or anything
      else (one of its descendants included). */
  datatype Target = OverlayElement | OtherElement

  /** The inputs that drive the coordinator. Timers and the resize debounce
      appear as the moment their callback runs. */
  datatype Event =
    | PopupTimerFired                 // the callback of setupPopupTimer
    | Scrolled(pastThreshold: bool)   // the scroll listener of setupPopupScroll
    | PopupDismissed                  // window.closePopup() called from markup
    | DocumentClicked(target: Target) // the document-wide click listener
    | StickyAdSetup(innerWidth: int)  // setupStickyAd, run at DOMContentLoaded
    | StickyTimerFired                // the delayed callback of setupStickyAd
    | StickyAdDismissed               // window.closeStickyAd() called from markup
    | ResizeSettled(innerWidth: int)  // the debounced resize callback

  /** Everything the ad handlers read or write.
      `overlayPresent`, `stickyPresent`: the two elements exist in the page.
      `overlayActive`: the overlay carries the `active` class.
      `popupShown`, `stickyAdClosed`: the script's two flags.
      `stickyActive`: the sticky ad carries the `active` class.
      `stickyHidden`: its inline `style.display` is `'none'`.
      `pendingReveals`: reveal timers scheduled by `setupStickyAd` and not yet run. */
  datatype AdState = AdState(
    overlayPresent: bool,
    overlayActive: bool,
    popupShown: bool,
    stickyPresent: bool,
    stickyActive: bool,
    stickyHidden: bool,
    stickyAdClosed: bool,
    pendingReveals: nat)
  {
    /** The sticky ad is on screen: it exists, the `active` class reveals it
        and no inline `display: none` overrides that. */
    predicate StickyVisible()
    {
      stickyPresent && stickyActive && !stickyHidden
    }

    /** The facts every reachable state keeps: only an existing overlay is
        active, and only after it was shown; only an existing sticky ad is
        marked, and a closed one is hidden. */
    predicate Consistent()
    {
      (overlayActive ==> overlayPresent && popupShown)
      && (popupShown ==> overlayPresent)
      && (stickyActive || stickyHidden || stickyAdClosed ==> stickyPresent)
      && (stickyAdClosed ==> stickyHidden)
    }

    /** `showPopup` (script.js:19-28). */
    function ShowPopup(): AdState
    {
      if !popupShown && overlayPresent then this.(overlayActive := true, popupShown := true)
      else this
    }

    /** `closePopup` (script.js:33-38). */
    function ClosePopup(): AdState
    {
      if overlayPresent then this.(overlayActive := false) else this
    }

    /** The scroll listener (script.js:53-61); `pastThreshold` stands for the
        scroll percentage having reached `POPUP_TRIGGER_SCROLL`. */
    function OnScroll(pastThreshold: bool): AdState
    {
      if popupShown then this
      else if pastThreshold then ShowPopup()
      else this
    }

    /** The document click listener (script.js:453-458). */
    function OnDocumentClick(target: Target): AdState
    {
      if overlayPresent && target == OverlayElement then ClosePopup() else this
    }

    /** `closeStickyAd` (script.js:71-77). */
    function CloseStickyAd(): AdState
    {
      if stickyPresent then this.(stickyHidden := true, stickyAdClosed := true) else this
    }

    /** `setupStickyAd` (script.js:82-92): schedule a reveal on a mobile viewport
        while the ad is not closed. */
    function SetupStickyAd(innerWidth: int): AdState
    {
      if innerWidth <= MobileBreakpoint && !stickyAdClosed then this.(pendingReveals := pendingReveals + 1)
      else this
    }

    /** The reveal timer's callback (script.js:85-90). It does not look at the
        closed flag. A firing with no timer pending is no event at all. */
    function OnStickyTimer(): AdState
    {
      if pendingReveals == 0 then this
      else if stickyPresent then this.(pendingReveals := pendingReveals - 1, stickyActive := true)
      else this.(pendingReveals := pendingReveals - 1)
    }

    /** The debounced resize callback (script.js:436-446); `setupMobileMenu`
        only logs. */
    function OnResize(innerWidth: int): AdState
    {
      if innerWidth > MobileBreakpoint && stickyPresent then this.(stickyHidden := true) else this
    }

    /** Dispatch of one event. */
    function Step(e: Event): AdState
    {
      match e
      case PopupTimerFired => ShowPopup()
      case Scrolled(past) => OnScroll(past)
      case PopupDismissed => ClosePopup()
      case DocumentClicked(target) => OnDocumentClick(target)
      case StickyAdSetup(w) => SetupStickyAd(w)
      case StickyTimerFired => OnStickyTimer()
      case StickyAdDismissed => CloseStickyAd()
      case ResizeSettled(w) => OnResize(w)
    }

    /** The state after the events of `events`, in order. */
    function Run(events: seq<Event>): AdState
      decreases |events|
    {
      if events == [] then this else Step(events[0]).Run(events[1..])
    }

    /** The number of events, along `events`, after which the overlay has
        turned from inactive to active. */
    function Activations(events: seq<Event>): nat
      decreases |events|
    {
      if events == [] then 0
      else
        var next := Step(events[0]);
        (if !overlayActive && next.overlayActive then 1 else 0) + next.Activations(events[1..])
    }
  }

  /** The state at page load: both flags down, nothing shown, nothing scheduled. */
  function Initial(overlayPresent: bool, stickyPresent: bool): (s: AdState)
    ensures s.Consistent() && !s.popupShown && !s.stickyAdClosed && !s.StickyVisible()
  {
    AdState(overlayPresent, false, false, stickyPresent, false, false, false, 0)
  }

  // ---------------------------------------------------------------------------
  // One handler at a time
  // ---------------------------------------------------------------------------

  /** `showPopup` is at most once and is a no-op without the overlay:
      it changes the state only when the flag is down and the overlay exists,
      and then it activates the overlay and raises the flag. */
  lemma ShowPopupOnce(s: AdState)
    ensures s.popupShown || !s.overlayPresent ==> s.ShowPopup() == s
    ensures !s.popupShown && s.overlayPresent ==>
      s.ShowPopup() == s.(overlayActive := true, popupShown := true)
    ensures s.ShowPopup().ShowPopup() == s.ShowPopup()
  {
  }

  /** `closePopup` deactivates the overlay and does not re-arm it: the flag is
      unchanged, so a `showPopup` after the close of a shown pop-up does nothing. */
  lemma CloseDoesNotRearm(s: AdState)
    ensures s.ClosePopup().popupShown == s.popupShown
    ensures s.overlayPresent ==> !s.ClosePopup().overlayActive
    ensures s.popupShown ==> s.ClosePopup().ShowPopup() == s.ClosePopup()
  {
  }

  /** The click rule: a click on the overlay itself closes the pop-up; a click
      anywhere else, a descendant of the overlay included, changes nothing. */
  lemma OutsideClickRule(s: AdState)
    ensures s.OnDocumentClick(OtherElement) == s
    ensures s.OnDocumentClick(OverlayElement) == s.ClosePopup()
  {
  }

  /** `closeStickyAd` on an existing ad hides it and raises the flag, and nothing
      else; without the element it does nothing. */
  lemma CloseStickyLatches(s: AdState)
    ensures s.stickyPresent ==> s.CloseStickyAd() == s.(stickyHidden := true, stickyAdClosed := true)
    ensures !s.stickyPresent ==> s.CloseStickyAd() == s
    ensures s.stickyPresent ==> !s.CloseStickyAd().StickyVisible()
  {
  }

  /** `setupStickyAd` schedules a reveal exactly when the viewport is at most
      768 pixels wide and the ad is not closed, and touches nothing else. */
  lemma StickySetupGate(s: AdState, innerWidth: int)
    ensures s.SetupStickyAd(innerWidth).pendingReveals ==
      s.pendingReveals + (if innerWidth <= MobileBreakpoint && !s.stickyAdClosed then 1 else 0)
    ensures s.SetupStickyAd(innerWidth).(pendingReveals := s.pendingReveals) == s
  {
  }

  /** The resize path never shows the sticky ad, and above 768 pixels it hides
      it; only the hidden style can change. */
  lemma ResizeNeverReveals(s: AdState, innerWidth: int)
    ensures s.OnResize(innerWidth).StickyVisible() ==> s.StickyVisible()
    ensures innerWidth > MobileBreakpoint ==> !s.OnResize(innerWidth).StickyVisible()
    ensures s.OnResize(innerWidth).(stickyHidden := s.stickyHidden) == s
  {
  }

  /** Every handler keeps `Consistent`. */
  lemma StepConsistent(s: AdState, e: Event)
    requires s.Consistent()
    ensures s.Step(e).Consistent()
  {
  }

  // ---------------------------------------------------------------------------
  // Whole runs
  // ---------------------------------------------------------------------------

  /** Every run keeps `Consistent`. */
  lemma {:induction false} RunConsistent(s: AdState, events: seq<Event>)
    requires s.Consistent()
    ensures s.Run(events).Consistent()
    decreases |events|
  {
    if events != [] {
      StepConsistent(s, events[0]);
      RunConsistent(s.Step(events[0]), events[1..]);
    }
  }

  /** Once raised, `popupShown` stays raised for the rest of the page's life. */
  lemma {:induction false} PopupShownLatches(s: AdState, events: seq<Event>)
    requires s.popupShown
    ensures s.Run(events).popupShown
    decreases |events|
  {
    if events != [] {
      PopupShownLatches(s.Step(events[0]), events[1..]);
    }
  }

  /** After the pop-up has been shown, no trigger, timer or scroll, activates
      the overlay again. */
  lemma {:induction false} NoActivationAfterShown(s: AdState, events: seq<Event>)
    requires s.popupShown
    ensures s.Activations(events) == 0
    decreases |events|
  {
    if events != [] {
      NoActivationAfterShown(s.Step(events[0]), events[1..]);
    }
  }

  /** From any consistent state whose flag is down, the overlay is activated
      at most once along any run, and it is activated exactly when the run
      ends with the flag raised. */
  lemma {:induction false} ActivatedAtMostOnce(s: AdState, events: seq<Event>)
    requires s.Consistent() && !s.popupShown
    ensures s.Activations(events) <= 1
    ensures s.Activations(events) == 1 <==> s.Run(events).popupShown
    decreases |events|
  {
    if events != [] {
      var next := s.Step(events[0]);
      StepConsistent(s, events[0]);
      if next.popupShown {
        assert !s.overlayActive && next.overlayActive;
        NoActivationAfterShown(next, events[1..]);
        PopupShownLatches(next, events[1..]);
      } else {
        assert !next.overlayActive;
        ActivatedAtMostOnce(next, events[1..]);
      }
    }
  }

  /** Timer firing: if the overlay exists and the pop-up timer has fired at
      some point of the run, the pop-up has been shown by the end. */
  lemma {:induction false} TimerShowsPopup(s: AdState, events: seq<Event>)
    requires s.overlayPresent && PopupTimerFired in events
    ensures s.Run(events).popupShown
    decreases |events|
  {
    var next := s.Step(events[0]);
    if events[0] == PopupTimerFired {
      PopupShownLatches(next, events[1..]);
    } else {
      assert PopupTimerFired in events[1..];
      TimerShowsPopup(next, events[1..]);
    }
  }

  /** Scroll threshold: if the overlay exists and some scroll event of the run
      found the threshold reached, the pop-up has been shown by the end. */
  lemma {:induction false} ScrollShowsPopup(s: AdState, events: seq<Event>)
    requires s.overlayPresent && Scrolled(true) in events
    ensures s.Run(events).popupShown
    decreases |events|
  {
    var next := s.Step(events[0]);
    if events[0] == Scrolled(true) {
      PopupShownLatches(next, events[1..]);
    } else {
      assert Scrolled(true) in events[1..];
      ScrollShowsPopup(next, events[1..]);
    }
  }

  /** Once raised, `stickyAdClosed` stays raised for the rest of the page's life. */
  lemma {:induction false} StickyClosedLatches(s: AdState, events: seq<Event>)
    requires s.stickyAdClosed
    ensures s.Run(events).stickyAdClosed
    decreases |events|
  {
    if events != [] {
      StickyClosedLatches(s.Step(events[0]), events[1..]);
    }
  }

  /** A dismissed sticky ad never returns: from a consistent state with the
      closed flag raised, no later event (resize to any width, a reveal timer
      scheduled before the dismissal, a new setup) makes it visible. */
  lemma {:induction false} ClosedStickyStaysHidden(s: AdState, events: seq<Event>)
    requires s.Consistent() && s.stickyAdClosed
    ensures !s.Run(events).StickyVisible()
    decreases |events|
  {
    if events != [] {
      StepConsistent(s, events[0]);
      ClosedStickyStaysHidden(s.Step(events[0]), events[1..]);
    }
  }

  /** The event is a `setupStickyAd` run on a viewport at most 768 pixels wide. */
  predicate IsMobileSetup(e: Event)
  {
    e.StickyAdSetup? && e.innerWidth <= MobileBreakpoint
  }

  /** The sticky ad is shown only on mobile: starting with no reveal scheduled
      and the ad not marked active (as at page load), a run in which
      `setupStickyAd` never ran on a viewport of at most 768 pixels never makes
      the sticky ad visible, nor even marks it active. */
  lemma {:induction false} StickyRevealNeedsMobileSetup(s: AdState, events: seq<Event>)
    requires !s.stickyActive && s.pendingReveals == 0
    requires forall i :: 0 <= i < |events| ==> !IsMobileSetup(events[i])
    ensures !s.Run(events).stickyActive && !s.Run(events).StickyVisible()
    decreases |events|
  {
    if events != [] {
      assert !IsMobileSetup(events[0]);
      assert forall i :: 0 <= i < |events[1..]| ==> events[1..][i] == events[i + 1];
      StickyRevealNeedsMobileSetup(s.Step(events[0]), events[1..]);
    }
  }

  /** On a 500-pixel viewport the sticky ad is visible once the reveal timer has run. */
  lemma MobileRevealExample()
    ensures Initial(true, true).Run([StickyAdSetup(500), StickyTimerFired]).StickyVisible()
  {
  }

  /** Closed before a resize to 1200 pixels, the sticky ad stays hidden, even
      when the reveal timer runs afterwards. */
  lemma ClosedThenResizedExample()
    ensures !Initial(true, true).Run([StickyAdSetup(500), StickyAdDismissed, ResizeSettled(1200), StickyTimerFired]).StickyVisible()
  {
    var s := Initial(true, true).Step(StickyAdSetup(500)).Step(StickyAdDismissed);
    assert s.stickyAdClosed;
    ClosedStickyStaysHidden(s, [ResizeSettled(1200), StickyTimerFired]);
  }

  // ---------------------------------------------------------------------------
  // The page, with the flags and the two elements as mutable fields
  // ---------------------------------------------------------------------------

  /** The script's state as the browser holds it: the two module-level flags,
      the classes and inline style of the two ad elements, and the reveal
      timers in flight. Whether each element exists is fixed at load. */
  class AdPage {
    const overlayPresent: bool
    const stickyPresent: bool
    var overlayActive: bool
    var popupShown: bool
    var stickyActive: bool
    var stickyHidden: bool
    var stickyAdClosed: bool
    var pendingReveals: nat

    /** The value these fields stand for. */
    function State(): AdState
      reads this
    {
      AdState(overlayPresent, overlayActive, popupShown, stickyPresent,
              stickyActive, stickyHidden, stickyAdClosed, pendingReveals)
    }

    predicate Valid()
      reads this
    {
      State().Consistent()
    }

    /** Page load: `let popupShown = false; let stickyAdClosed = false;`. */
    constructor (overlayPresent: bool, stickyPresent: bool)
      ensures Valid() && State() == Initial(overlayPresent, stickyPresent)
    {
      this.overlayPresent := overlayPresent;
      this.stickyPresent := stickyPresent;
      overlayActive, popupShown := false, false;
      stickyActive, stickyHidden, stickyAdClosed := false, false, false;
      pendingReveals := 0;
    }

    method ShowPopup()
      requires Valid()
      modifies this
      ensures Valid() && State() == old(State()).ShowPopup()
    {
      if !popupShown {
        if overlayPresent {
          overlayActive := true;
          popupShown := true;
        }
      }
    }

    method ClosePopup()
      requires Valid()
      modifies this
      ensures Valid() && State() == old(State()).ClosePopup()
    {
      if overlayPresent {
        overlayActive := false;
      }
    }

    /** The pop-up timer's callback. */
    method OnPopupTimer()
      requires Valid()
      modifies this
      ensures Valid() && State() == old(State()).Step(PopupTimerFired)
    {
      ShowPopup();
    }

    method OnScroll(pastThreshold: bool)
      requires Valid()
      modifies this
      ensures Valid() && State() == old(State()).OnScroll(pastThreshold)
    {
      if popupShown {
        return;
      }
      if pastThreshold {
        ShowPopup();
      }
    }

    method OnDocumentClick(target: Target)
      requires Valid()
      modifies this
      ensures Valid() && State() == old(State()).OnDocumentClick(target)
    {
      if overlayPresent && target == OverlayElement {
        ClosePopup();
      }
    }

    method CloseStickyAd()
      requires Valid()
      modifies this
      ensures Valid() && State() == old(State()).CloseStickyAd()
    {
      if stickyPresent {
        stickyHidden := true;
        stickyAdClosed := true;
      }
    }

    method SetupStickyAd(innerWidth: int)
      requires Valid()
      modifies this
      ensures Valid() && State() == old(State()).SetupStickyAd(innerWidth)
    {
      if innerWidth <= MobileBreakpoint && !stickyAdClosed {
        pendingReveals := pendingReveals + 1;
      }
    }

    method OnStickyTimer()
      requires Valid()
      modifies this
      ensures Valid() && State() == old(State()).OnStickyTimer()
    {
      if pendingReveals > 0 {
        pendingReveals := pendingReveals - 1;
        if stickyPresent {
          stickyActive := true;
        }
      }
    }

    method OnResize(innerWidth: int)
      requires Valid()
      modifies this
      ensures Valid() && State() == old(State()).OnResize(innerWidth)
    {
      if innerWidth > MobileBreakpoint {
        if stickyPresent {
          stickyHidden := true;
        }
      }
    }

    /** Hands one event to its handler. */
    method Dispatch(e: Event)
      requires Valid()
      modifies this
      ensures Valid() && State() == old(State()).Step(e)
    {
      match e
      case PopupTimerFired => OnPopupTimer();
      case Scrolled(past) => OnScroll(past);
      case PopupDismissed => ClosePopup();
      case DocumentClicked(target) => OnDocumentClick(target);
      case StickyAdSetup(w) => SetupStickyAd(w);
      case StickyTimerFired => OnStickyTimer();
      case StickyAdDismissed => CloseStickyAd();
      case ResizeSettled(w) => OnResize(w);
    }
  }
}
