/**
 * The global hotkey (internal/hotkey/hotkey_windows.go and internal/hotkey/hotkey.go):
 * parsing the hotkey text, the registration state kept in `isRunning`, `threadID`
 * and `loopExitChan`, the message loop that launches the handler once per
 * WM_HOTKEY, and the teardown that posts WM_QUIT and waits at most 3 seconds.
 * Win32 calls are answers given as parameters: whether RegisterHotKey accepted
 * (`os`), the loop thread's id (`tid`), what GetMessageW returned (`Got`), and
 * whether the loop reported its exit before the timeout (`exitsInTime`).
 */
module Hotkey {
  import opened Wrappers

  const MOD_ALT: bv32 := 0x0001
  const MOD_CONTROL: bv32 := 0x0002
  const MOD_SHIFT: bv32 := 0x0004
  const MOD_WIN: bv32 := 0x0008
  const MOD_NOREPEAT: bv32 := 0x4000

  const WM_HOTKEY: bv32 := 0x0312
  const WM_QUIT: bv32 := 0x0012

  /** `uintptr(syscall.InvalidHandle)`, the value the loop compares GetMessageW's result with. */
  const INVALID_HANDLE: nat := 0xFFFF_FFFF_FFFF_FFFF

  /** The key combination handed to RegisterHotKey. */
  datatype Binding = Binding(modifiers: bv32, vkCode: bv32)

  /** `parseHotkey`: the three supported hotkeys, each with MOD_NOREPEAT set. */
  function ParseHotkey(hotkey: string): (r: Result<Binding>)
    ensures r.Success? <==> hotkey == "Ctrl+Shift+S" || hotkey == "Ctrl+Alt+S" || hotkey == "PrintScreen"
    ensures r.Success? ==> r.value.modifiers & MOD_NOREPEAT == MOD_NOREPEAT && r.value.modifiers & MOD_WIN == 0
    ensures r.Failure? ==> r.error == "unsupported hotkey: " + hotkey
    ensures hotkey == "Ctrl+Shift+S" ==> r == Success(Binding(0x4006, 0x53))
    ensures hotkey == "Ctrl+Alt+S" ==> r == Success(Binding(0x4003, 0x53))
    ensures hotkey == "PrintScreen" ==> r == Success(Binding(0x4000, 0x2C))
  {
    var modifiers := MOD_NOREPEAT;
    if hotkey == "Ctrl+Shift+S" then Success(Binding(modifiers | MOD_CONTROL | MOD_SHIFT, 0x53))
    else if hotkey == "Ctrl+Alt+S" then Success(Binding(modifiers | MOD_CONTROL | MOD_ALT, 0x53))
    else if hotkey == "PrintScreen" then Success(Binding(modifiers, 0x2C))
    else Failure("unsupported hotkey: " + hotkey)
  }

  // ---------------------------------------------------------------- message loop

  /** A handler function, by identity; `None` is a nil handler. */
  type HandlerId = nat

  /** One GetMessageW call: the value it returned, as a uintptr, and the message it filled in. */
  datatype Got = Got(ret: nat, message: bv32)

  /** The loop returns on a 0 or invalid-handle result, or on a WM_QUIT message. */
  predicate EndsLoop(g: Got) {
    g.ret == 0 || g.ret == INVALID_HANDLE || g.message == WM_QUIT
  }

  /** The position of the first message that ends the loop, or `|msgs|` when none does. */
  function ExitIndex(msgs: seq<Got>): (i: nat)
    ensures i <= |msgs|
    ensures i < |msgs| ==> EndsLoop(msgs[i])
    ensures forall j :: 0 <= j < i ==> !EndsLoop(msgs[j])
  {
    if msgs == [] || EndsLoop(msgs[0]) then 0 else 1 + ExitIndex(msgs[1..])
  }

  /** How many of `msgs` are WM_HOTKEY messages. */
  function CountHotkeys(msgs: seq<Got>): nat
  {
    if msgs == [] then 0
    else CountHotkeys(msgs[..|msgs| - 1]) + if msgs[|msgs| - 1].message == WM_HOTKEY then 1 else 0
  }

  /**
   * `messageLoop` over the messages GetMessageW delivers: it launches the handler
   * once per WM_HOTKEY (nothing for a nil handler) and stops at the first message
   * that ends the loop; when none does it is still waiting after the last one.
   */
  method MessageLoop(msgs: seq<Got>, handler: Option<HandlerId>) returns (launched: seq<HandlerId>, consumed: nat, exited: bool)
    ensures exited <==> ExitIndex(msgs) < |msgs|
    ensures consumed == if exited then ExitIndex(msgs) + 1 else |msgs|
    ensures |launched| == if handler.Some? then CountHotkeys(msgs[..ExitIndex(msgs)]) else 0
    ensures forall k :: 0 <= k < |launched| ==> handler.Some? && launched[k] == handler.value
  {
    launched := [];
    var i := 0;
    while i < |msgs|
      invariant 0 <= i <= |msgs|
      invariant forall j :: 0 <= j < i ==> !EndsLoop(msgs[j])
      invariant |launched| == if handler.Some? then CountHotkeys(msgs[..i]) else 0
      invariant forall k :: 0 <= k < |launched| ==> handler.Some? && launched[k] == handler.value
    {
      var msg := msgs[i];
      if msg.ret == 0 || msg.ret == INVALID_HANDLE {
        return launched, i + 1, true;
      }
      assert msgs[..i + 1] == msgs[..i] + [msg];
      if msg.message == WM_HOTKEY {
        if handler.Some? {
          launched := launched + [handler.value];
        }
      } else if msg.message == WM_QUIT {
        return launched, i + 1, true;
      }
      i := i + 1;
    }
    assert msgs[..i] == msgs;
    return launched, |msgs|, false;
  }

  /** Counting hotkeys distributes over a split of the message stream. */
  lemma {:induction false} CountHotkeysAppend(a: seq<Got>, b: seq<Got>)
    ensures CountHotkeys(a + b) == CountHotkeys(a) + CountHotkeys(b)
  {
    if b != [] {
      var b' := b[..|b| - 1];
      assert (a + b)[..|a + b| - 1] == a + b';
      CountHotkeysAppend(a, b');
    } else {
      assert a + b == a;
    }
  }

  /** A stream that does not end the loop can be followed by more: the exit point moves by its length. */
  lemma {:induction false} ExitIndexAppend(a: seq<Got>, b: seq<Got>)
    requires ExitIndex(a) == |a|
    ensures ExitIndex(a + b) == |a| + ExitIndex(b)
  {
    if a != [] {
      assert (a + b)[1..] == a[1..] + b;
      assert !EndsLoop(a[0]);
      ExitIndexAppend(a[1..], b);
    } else {
      assert a + b == b;
    }
  }

  // ---------------------------------------------------------------- registration state

  /** What `unregister`'s wait for the loop ended with. */
  datatype WaitResult = NotRunning | LoopExited | TimedOut

  /** The order in which the handler and the running flag change. */
  datatype Event = HandlerSet(handler: Option<HandlerId>) | StartedRunning(hotkey: string) | StoppedRunning

  class Manager {
    /** `currentHandler`. */
    var currentHandler: Option<HandlerId>
    var isRunning: bool
    /** The thread id the last message loop recorded, 0 before any. */
    var threadID: nat
    /** `loopExitChan` by identity, 0 for nil. */
    var loopExitChan: nat
    var closedChans: set<nat>
    var nextChan: nat
    /** The threads pumping a message loop. */
    var loops: set<nat>
    /** Every handler launched by a message loop, in order. */
    var launched: seq<HandlerId>
    ghost var events: seq<Event>

    ghost predicate Valid()
      reads this
    {
      && 0 < nextChan
      && loopExitChan < nextChan
      && (forall c :: c in closedChans ==> 0 < c < nextChan)
      && (isRunning ==> loopExitChan != 0)
      && (threadID in loops ==> loopExitChan != 0 && loopExitChan !in closedChans)
      && 0 !in loops
    }

    constructor ()
      ensures Valid()
      ensures currentHandler == None && !isRunning && threadID == 0 && loopExitChan == 0
      ensures closedChans == {} && loops == {} && launched == [] && events == []
    {
      currentHandler, isRunning, threadID, loopExitChan := None, false, 0, 0;
      closedChans, nextChan, loops, launched := {}, 1, {}, [];
      events := [];
    }

    /**
     * `register`: a hotkey that does not parse changes nothing. Otherwise the
     * state says running and holds a fresh exit channel before the OS is asked;
     * a refusal leaves it so and starts no loop, an acceptance starts the loop
     * on thread `tid`.
     */
    method RegisterHotkey(hotkey: string, os: Outcome, tid: nat) returns (r: Outcome)
      requires Valid()
      requires os.Pass? ==> tid != 0 && tid !in loops
      modifies this
      ensures Valid()
      ensures ParseHotkey(hotkey).Failure? ==> r == Fail(ParseHotkey(hotkey).error) && unchanged(this)
      ensures ParseHotkey(hotkey).Success? ==>
                && isRunning
                && loopExitChan == old(nextChan) && nextChan == old(nextChan) + 1
                && closedChans == old(closedChans)
                && threadID == (if os.Pass? then tid else old(threadID))
                && loops == (if os.Pass? then old(loops) + {tid} else old(loops))
                && r == (if os.Pass? then Pass else Fail("failed to register hotkey: " + os.error))
                && events == old(events) + [StartedRunning(hotkey)]
      ensures currentHandler == old(currentHandler) && launched == old(launched)
    {
      var parsed := ParseHotkey(hotkey);
      if parsed.Failure? {
        return Fail(parsed.error);
      }
      isRunning := true;
      loopExitChan := nextChan;
      nextChan := nextChan + 1;
      events := events + [StartedRunning(hotkey)];
      if os.Fail? {
        return Fail("failed to register hotkey: " + os.error);
      }
      threadID := tid;
      loops := loops + {tid};
      return Pass;
    }

    /**
     * The recorded loop handles the messages GetMessageW delivers: the current
     * handler is launched once per WM_HOTKEY, and a message that ends the loop
     * makes it leave and close the exit channel.
     */
    method Pump(msgs: seq<Got>) returns (consumed: nat, exited: bool)
      requires Valid() && threadID in loops
      modifies this
      ensures Valid()
      ensures exited <==> ExitIndex(msgs) < |msgs|
      ensures |launched| == |old(launched)| + if currentHandler.Some? then CountHotkeys(msgs[..ExitIndex(msgs)]) else 0
      ensures launched[..|old(launched)|] == old(launched)
      ensures forall k :: |old(launched)| <= k < |launched| ==> currentHandler.Some? && launched[k] == currentHandler.value
      ensures loops == if exited then old(loops) - {threadID} else old(loops)
      ensures closedChans == if exited then old(closedChans) + {loopExitChan} else old(closedChans)
      ensures currentHandler == old(currentHandler) && isRunning == old(isRunning) && threadID == old(threadID)
      ensures loopExitChan == old(loopExitChan) && nextChan == old(nextChan) && events == old(events)
    {
      var started;
      started, consumed, exited := MessageLoop(msgs, currentHandler);
      launched := launched + started;
      if exited {
        loops := loops - {threadID};
        closedChans := closedChans + {loopExitChan};
      }
    }

    /**
     * `unregister`: nothing when not running. Otherwise the flag drops, WM_QUIT
     * goes to the recorded thread when its id is not 0, and the wait ends when the
     * exit channel is closed or after 3 seconds, returning in both cases.
     */
    method UnregisterHotkey(exitsInTime: bool) returns (w: WaitResult)
      requires Valid()
      modifies this
      ensures Valid()
      ensures !old(isRunning) ==> w == NotRunning && unchanged(this)
      ensures old(isRunning) ==> !isRunning && events == old(events) + [StoppedRunning]
      ensures old(isRunning) ==>
                var quit := old(threadID) != 0 && old(threadID) in old(loops);
                && loops == (if quit then old(loops) - {old(threadID)} else old(loops))
                && closedChans == (if quit then old(closedChans) + {old(loopExitChan)} else old(closedChans))
                && w == (if old(loopExitChan) in old(closedChans) || (quit && exitsInTime) then LoopExited else TimedOut)
      ensures currentHandler == old(currentHandler) && threadID == old(threadID) && loopExitChan == old(loopExitChan)
      ensures nextChan == old(nextChan) && launched == old(launched)
    {
      if !isRunning {
        return NotRunning;
      }
      isRunning := false;
      events := events + [StoppedRunning];
      var tid := threadID;
      var exitChan := loopExitChan;
      var alreadyClosed := exitChan in closedChans;
      var quitHandled := false;
      if tid != 0 {
        if tid in loops {
          loops := loops - {tid};
          closedChans := closedChans + {loopExitChan};
          quitHandled := true;
        }
      }
      w := TimedOut;
      assert exitChan != 0;
      if alreadyClosed || (quitHandled && exitsInTime) {
        w := LoopExited;
      }
    }

    /** `Register`: the handler is replaced first, then `register` runs, unguarded against a running hotkey. */
    method Register(hotkey: string, handler: Option<HandlerId>, os: Outcome, tid: nat) returns (r: Outcome)
      requires Valid()
      requires os.Pass? ==> tid != 0 && tid !in loops
      modifies this
      ensures Valid()
      ensures currentHandler == handler
      ensures ParseHotkey(hotkey).Failure? ==>
                r == Fail(ParseHotkey(hotkey).error) && isRunning == old(isRunning) && loopExitChan == old(loopExitChan)
                && threadID == old(threadID) && loops == old(loops)
                && events == old(events) + [HandlerSet(handler)]
      ensures ParseHotkey(hotkey).Success? ==>
                && isRunning && loopExitChan == old(nextChan)
                && r == (if os.Pass? then Pass else Fail("failed to register hotkey: " + os.error))
                && threadID == (if os.Pass? then tid else old(threadID))
                && loops == (if os.Pass? then old(loops) + {tid} else old(loops))
                && events == old(events) + [HandlerSet(handler), StartedRunning(hotkey)]
      ensures closedChans == old(closedChans) && launched == old(launched)
    {
      currentHandler := handler;
      events := events + [HandlerSet(handler)];
      r := RegisterHotkey(hotkey, os, tid);
    }

    /** `Unregister`: exactly `unregister`. */
    method Unregister(exitsInTime: bool) returns (w: WaitResult)
      requires Valid()
      modifies this
      ensures Valid()
      ensures !old(isRunning) ==> w == NotRunning && unchanged(this)
      ensures old(isRunning) ==> !isRunning && events == old(events) + [StoppedRunning]
      ensures old(isRunning) ==>
                var quit := old(threadID) != 0 && old(threadID) in old(loops);
                && loops == (if quit then old(loops) - {old(threadID)} else old(loops))
                && closedChans == (if quit then old(closedChans) + {old(loopExitChan)} else old(closedChans))
                && w == (if old(loopExitChan) in old(closedChans) || (quit && exitsInTime) then LoopExited else TimedOut)
      ensures currentHandler == old(currentHandler) && threadID == old(threadID) && loopExitChan == old(loopExitChan)
      ensures nextChan == old(nextChan) && launched == old(launched)
    {
      w := UnregisterHotkey(exitsInTime);
    }

    /**
     * `ChangeHotkey`: unregister, then swap the handler, then register, so
     * between the first and the last step no hotkey is running.
     */
    method ChangeHotkey(newHotkey: string, handler: Option<HandlerId>, exitsInTime: bool, os: Outcome, tid: nat)
      returns (r: Outcome)
      requires Valid()
      requires os.Pass? ==> tid != 0 && tid !in loops
      modifies this
      ensures Valid()
      ensures currentHandler == handler
      ensures events == old(events) + (if old(isRunning) then [StoppedRunning] else [])
                         + [HandlerSet(handler)]
                         + (if ParseHotkey(newHotkey).Success? then [StartedRunning(newHotkey)] else [])
      ensures isRunning <==> ParseHotkey(newHotkey).Success?
      ensures ParseHotkey(newHotkey).Failure? ==> r == Fail(ParseHotkey(newHotkey).error)
      ensures ParseHotkey(newHotkey).Success? ==> r == if os.Pass? then Pass else Fail("failed to register hotkey: " + os.error)
      ensures var quit := old(isRunning) && old(threadID) != 0 && old(threadID) in old(loops);
              var remaining := if quit then old(loops) - {old(threadID)} else old(loops);
              && closedChans == (if quit then old(closedChans) + {old(loopExitChan)} else old(closedChans))
              && loops == (if ParseHotkey(newHotkey).Success? && os.Pass? then remaining + {tid} else remaining)
      ensures ParseHotkey(newHotkey).Success? ==>
                && loopExitChan == old(nextChan) && nextChan == old(nextChan) + 1
                && threadID == (if os.Pass? then tid else old(threadID))
      ensures ParseHotkey(newHotkey).Failure? ==>
                loopExitChan == old(loopExitChan) && nextChan == old(nextChan) && threadID == old(threadID)
      ensures launched == old(launched)
    {
      var _ := Unregister(exitsInTime);
      assert !isRunning;
      currentHandler := handler;
      events := events + [HandlerSet(handler)];
      r := RegisterHotkey(newHotkey, os, tid);
    }
  }

  /**
   * A refused registration still counts as running, and no loop ever closes
   * its exit channel: the later `Unregister` waits out the whole timeout.
   */
  method RefusalThenUnregister(hotkey: string, osError: string, exitsInTime: bool) returns (r: Outcome, w: WaitResult)
    requires ParseHotkey(hotkey).Success?
    ensures r == Fail("failed to register hotkey: " + osError)
    ensures w == TimedOut
  {
    var m := new Manager();
    r := m.Register(hotkey, Some(1), Fail(osError), 0);
    assert m.isRunning && m.threadID == 0;
    w := m.Unregister(exitsInTime);
  }

  /**
   * An unsupported hotkey is refused before any state changes, and a later
   * registration of a supported one goes through as from a fresh start.
   */
  method BadHotkeyThenGoodHotkey(handler: HandlerId, tid: nat) returns (first: Outcome, second: Outcome, running: bool)
    requires tid != 0
    ensures first == Fail("unsupported hotkey: bad-hotkey")
    ensures second == Pass && running
  {
    var m := new Manager();
    first := m.Register("bad-hotkey", Some(handler), Pass, tid);
    assert !m.isRunning && m.loops == {};
    second := m.Register("Ctrl+Shift+S", Some(handler), Pass, tid);
    running := m.isRunning;
  }
}
