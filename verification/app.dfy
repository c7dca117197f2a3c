/**
 * The page shell's chat-open flag: restored from the session entry `chatOpen`,
 * flipped by the chat button and the window's close button, and set by a
 * three-second auto-open timer that is armed only on the home page while the
 * chat is closed.
 *
 * The timer is an identifier handed out by the environment's scheduler.
 * Clearing a timer, or letting it fire, retires its identifier; `Fire` with a
 * retired identifier is how a cancelled callback that never runs is expressed.
 */
module App {
  import opened Wrappers

  const HomePath: string := "/"
  const AutoOpenDelayMs: nat := 3000

  /** `String(b)`: the value stored under `chatOpen`. Reading it back gives `b`. */
  function BoolString(b: bool): (s: string)
    ensures InitialOpen(Some(s)) <==> b
  {
    if b then "true" else "false"
  }

  /** The initial flag: open only when the stored value is exactly `"true"`. */
  predicate InitialOpen(saved: Option<string>) {
    saved == Some("true")
  }

  /** The effect arms the auto-open timer only on the home page while the chat is closed. */
  predicate ShouldArm(pathname: string, isChatOpen: bool) {
    pathname == HomePath && !isChatOpen
  }

  datatype Timer = Timer(id: nat, delayMs: nat)

  class ChatOpenController {
    var isChatOpen: bool
    /** The session entry `chatOpen`; `None` when it was never written. */
    var savedChatOpen: Option<string>
    var pathname: string
    /** The timer the effect armed and has not cleared. */
    var timer: Option<Timer>
    var nextTimer: nat
    /** Identifiers of timers that were cleared or have fired. */
    ghost var retired: set<nat>

    ghost predicate IdsIssued()
      reads this
    {
      (timer.Some? ==> timer.value.id < nextTimer) &&
      (forall id :: id in retired ==> id < nextTimer)
    }

    ghost predicate Valid()
      reads this
    {
      IdsIssued() &&
      (timer.Some? <==> ShouldArm(pathname, isChatOpen)) &&
      (timer.Some? ==> timer.value.id !in retired && timer.value.delayMs == AutoOpenDelayMs)
    }

    /** Mounting: the flag from the stored value, then the effect's first run. */
    constructor(saved: Option<string>, pathname: string)
      ensures Valid()
      ensures isChatOpen == InitialOpen(saved) && savedChatOpen == saved && this.pathname == pathname
      ensures timer.Some? <==> ShouldArm(pathname, isChatOpen)
      ensures retired == {}
    {
      isChatOpen := InitialOpen(saved);
      savedChatOpen := saved;
      this.pathname := pathname;
      nextTimer := 1;
      retired := {};
      timer := if ShouldArm(pathname, InitialOpen(saved)) then Some(Timer(0, AutoOpenDelayMs)) else None;
    }

    /**
     * A dependency of the effect changed: its cleanup clears the armed timer,
     * then it arms a fresh one if the new path and flag call for it.
     */
    method Rerun()
      modifies this
      requires IdsIssued()
      ensures Valid()
      ensures isChatOpen == old(isChatOpen) && savedChatOpen == old(savedChatOpen) && pathname == old(pathname)
      ensures old(timer).Some? ==> old(timer).value.id in retired
      ensures timer.Some? ==> timer.value.id == old(nextTimer)
      ensures old(retired) <= retired
    {
      if timer.Some? {
        retired := retired + {timer.value.id};
      }
      if ShouldArm(pathname, isChatOpen) {
        timer := Some(Timer(nextTimer, AutoOpenDelayMs));
        nextTimer := nextTimer + 1;
      } else {
        timer := None;
      }
    }

    /** The router reports a path; only a different path re-runs the effect. */
    method Navigate(path: string)
      modifies this
      requires Valid()
      ensures Valid()
      ensures pathname == path && isChatOpen == old(isChatOpen) && savedChatOpen == old(savedChatOpen)
      ensures path == old(pathname) ==> timer == old(timer) && retired == old(retired)
      ensures path != old(pathname) && old(timer).Some? ==> old(timer).value.id in retired
      ensures old(retired) <= retired
    {
      if path != pathname {
        pathname := path;
        Rerun();
      }
    }

    /**
     * `handleChatToggle`, used by the chat button and the window's close
     * button: flip the flag and store it. Closing on the home page arms the
     * timer again.
     */
    method Toggle()
      modifies this
      requires Valid()
      ensures Valid()
      ensures isChatOpen == !old(isChatOpen) && savedChatOpen == Some(BoolString(isChatOpen))
      ensures InitialOpen(savedChatOpen) == isChatOpen
      ensures pathname == old(pathname)
      ensures timer.Some? <==> pathname == HomePath && !isChatOpen
      ensures old(timer).Some? ==> old(timer).value.id in retired
      ensures old(retired) <= retired
    {
      isChatOpen := !isChatOpen;
      savedChatOpen := Some(BoolString(isChatOpen));
      Rerun();
    }

    /**
     * The scheduler runs the callback of timer `id`. Only the armed timer
     * does anything: it opens the chat and stores `"true"`. A cleared timer
     * changes nothing.
     */
    method Fire(id: nat)
      modifies this
      requires Valid()
      ensures Valid()
      ensures id in old(retired) ==>
        isChatOpen == old(isChatOpen) && savedChatOpen == old(savedChatOpen) && timer == old(timer)
      ensures old(timer).Some? && old(timer).value.id == id ==>
        !old(isChatOpen) && isChatOpen && savedChatOpen == Some("true") && timer == None && id in retired
      ensures (old(timer).None? || old(timer).value.id != id) ==>
        isChatOpen == old(isChatOpen) && savedChatOpen == old(savedChatOpen) && timer == old(timer)
      ensures pathname == old(pathname)
      ensures old(retired) <= retired
    {
      if timer.Some? && timer.value.id == id {
        isChatOpen := true;
        savedChatOpen := Some("true");
        Rerun();
      }
    }
  }

  /** Two clicks on the chat button give back the flag, and the stored value matches it. */
  method DoubleToggle(c: ChatOpenController)
    modifies c
    requires c.Valid()
    ensures c.Valid()
    ensures c.isChatOpen == old(c.isChatOpen) && c.savedChatOpen == Some(BoolString(c.isChatOpen))
    ensures old(c.savedChatOpen) == Some(BoolString(old(c.isChatOpen))) ==> c.savedChatOpen == old(c.savedChatOpen)
    ensures c.pathname == old(c.pathname)
    ensures old(c.retired) <= c.retired
  {
    c.Toggle();
    c.Toggle();
  }
}
