/**
 * The backend's keystroke capture (typetrace/backend/event_handler.hpp): the
 * startup checks, the translation of libinput key events into keystroke
 * records, and the buffer that is flushed to the database manager when it
 * reaches BUFFER_SIZE records or when BUFFER_TIMEOUT seconds have passed
 * since the last flush.
 *
 * libinput, udev, libevdev, poll and the group database are not modelled:
 * their answers are inputs (a poll outcome, the events libinput hands out,
 * the table of key names, the group data).
 */
module EventHandling {
  import opened Optional
  import opened Errors
  import opened Constants
  import opened Types
  import opened Sql
  import opened DbManager

  // ---------------------------------------------------------------------
  // Events and records
  // ---------------------------------------------------------------------

  /** The type of a libinput event, as far as the handler distinguishes it. */
  datatype EventKind = DeviceAdded | KeyboardKey | OtherEvent

  datatype KeyState = Released | Pressed

  /** One libinput event: its type, and for keyboard events the key state and hardware code. */
  datatype RawEvent = RawEvent(kind: EventKind, state: KeyState, code: uint32)

  /** libevdev's table of key names: codes without an entry have no name. */
  type KeyNames = map<uint32, string>

  /** The name of the record's key: the table's entry, or "UNKNOWN" when there is none. */
  function KeyName(code: uint32, names: KeyNames): (r: string)
    ensures code in names ==> r == names[code]
    ensures code !in names ==> r == "UNKNOWN"
  {
    if code in names then names[code] else "UNKNOWN"
  }

  /** The date every record carries: date stamping is commented out in the source. */
  const PLACEHOLDER_DATE: string := "FIX_ME"

  /**
   * process_keyboard_event: a record for a key press, nothing for a release
   * or for an event that carries no keyboard event.
   */
  function ProcessKeyboardEvent(ev: RawEvent, names: KeyNames): (r: Option<KeystrokeEvent>)
    ensures r.Some? <==> ev.kind == KeyboardKey && ev.state == Pressed
    ensures r.Some? ==> r.value.keyCode == ev.code && r.value.date == PLACEHOLDER_DATE && r.value.count == 1
    ensures r.Some? ==> r.value.keyName == KeyName(ev.code, names)
  {
    if ev.kind != KeyboardKey then None
    else if ev.state != Pressed then None
    else Some(KeystrokeEvent(KeyName(ev.code, names), PLACEHOLDER_DATE, ev.code, 1))
  }

  /** Is this an event the drain loop turns into a record? */
  predicate IsPress(ev: RawEvent) {
    ev.kind == KeyboardKey && ev.state == Pressed
  }

  /** The records one drain of the event queue appends, in arrival order. */
  function Presses(events: seq<RawEvent>, names: KeyNames): seq<KeystrokeEvent> {
    if events == [] then []
    else
      var last := events[|events| - 1];
      var rec := if last.kind == KeyboardKey then ProcessKeyboardEvent(last, names) else None;
      Presses(events[..|events| - 1], names) + (if rec.Some? then [rec.value] else [])
  }

  /** The number of key presses among the events. */
  function PressCount(events: seq<RawEvent>): nat {
    if events == [] then 0
    else PressCount(events[..|events| - 1]) + (if IsPress(events[|events| - 1]) then 1 else 0)
  }

  /**
   * Draining two batches appends the records of the first, then those of the
   * second: arrival order is kept.
   */
  lemma {:induction false} PressesAppend(a: seq<RawEvent>, b: seq<RawEvent>, names: KeyNames)
    ensures Presses(a + b, names) == Presses(a, names) + Presses(b, names)
  {
    if b == [] {
      assert a + b == a;
    } else {
      assert (a + b)[..|a + b| - 1] == a + b[..|b| - 1];
      PressesAppend(a, b[..|b| - 1], names);
    }
  }

  /**
   * One record per key press and nothing else; every record counts one press
   * on the placeholder date and carries its event's code and name.
   */
  lemma {:induction false} PressesMeaning(events: seq<RawEvent>, names: KeyNames)
    ensures |Presses(events, names)| == PressCount(events)
    ensures forall e :: e in Presses(events, names) ==>
      e.count == 1 && e.date == PLACEHOLDER_DATE && e.keyName == KeyName(e.keyCode, names)
    ensures forall e :: e in Presses(events, names) ==>
      RawEvent(KeyboardKey, Pressed, e.keyCode) in events
  {
    if events != [] {
      var init := events[..|events| - 1];
      PressesMeaning(init, names);
      assert events == init + [events[|events| - 1]];
    }
  }

  /** Releases and non-keyboard events add nothing to the buffer. */
  lemma {:induction false} NoPressesNoRecords(events: seq<RawEvent>, names: KeyNames)
    requires forall i :: 0 <= i < |events| ==> !IsPress(events[i])
    ensures Presses(events, names) == []
  {
    if events != [] {
      NoPressesNoRecords(events[..|events| - 1], names);
    }
  }

  // ---------------------------------------------------------------------
  // The flush rule
  // ---------------------------------------------------------------------

  /**
   * should_flush, for a buffer of `pending` records, the clock at `now` and
   * the last flush at `lastFlush` (both in steady_clock nanoseconds).
   */
  function ShouldFlush(pending: nat, now: int, lastFlush: int): (r: bool)
    ensures pending == 0 ==> !r
    ensures pending >= BUFFER_SIZE ==> r
    ensures 0 < pending < BUFFER_SIZE ==> (r <==> now - lastFlush >= BUFFER_TIMEOUT_NS)
  {
    if pending >= BUFFER_SIZE then true
    else if pending != 0 then now - lastFlush >= BUFFER_TIMEOUT_NS
    else false
  }

  /** The outcome of the bounded poll on libinput's file descriptor. */
  datatype PollOutcome =
    | PollError     // poll returned a negative value
    | PollIdle      // nothing readable before the timeout
    | PollReadable  // POLLIN is set: libinput has events to hand out

  /** The records a cycle drains from libinput. */
  function Drained(poll: PollOutcome, events: seq<RawEvent>, names: KeyNames): seq<KeystrokeEvent> {
    if poll.PollReadable? then Presses(events, names) else []
  }

  /** The handler's state after one trace cycle, and the records it handed to the callback. */
  datatype Cycle = Cycle(buffer: seq<KeystrokeEvent>, lastFlush: int, flushed: seq<KeystrokeEvent>)

  /**
   * One trace cycle over the buffer and the last flush time: on a poll error
   * nothing changes; otherwise the drained records are appended and the flush
   * rule decides whether the whole buffer goes to the callback.
   */
  function TraceCycle(buffer: seq<KeystrokeEvent>, lastFlush: int, now: int,
                      poll: PollOutcome, events: seq<RawEvent>, names: KeyNames): (c: Cycle)
    ensures poll.PollError? ==> c == Cycle(buffer, lastFlush, [])
    ensures !poll.PollError? ==> c.flushed + c.buffer == buffer + Drained(poll, events, names)
    ensures !poll.PollError? ==> |c.buffer| < BUFFER_SIZE
    ensures c.flushed != [] ==> c.buffer == [] && c.lastFlush == now
    ensures c.flushed == [] ==> c.lastFlush == lastFlush
    ensures !poll.PollError? ==>
      (c.flushed != [] <==> ShouldFlush(|buffer + Drained(poll, events, names)|, now, lastFlush))
  {
    if poll.PollError? then Cycle(buffer, lastFlush, [])
    else
      var pending := buffer + Drained(poll, events, names);
      if ShouldFlush(|pending|, now, lastFlush) then Cycle([], now, pending)
      else
        assert pending + [] == pending;
        Cycle(pending, lastFlush, [])
  }

  /**
   * No keystroke is lost or counted twice by a cycle whose write commits: the
   * table's total plus the buffered records grows by exactly the drained
   * records.
   */
  lemma CycleConservesKeystrokes(t: Table, buffer: seq<KeystrokeEvent>, lastFlush: int, now: int,
                                 poll: PollOutcome, events: seq<RawEvent>, names: KeyNames)
    ensures var c := TraceCycle(buffer, lastFlush, now, poll, events, names);
      TotalCount(Persisted(t, c.flushed, NoWriteFault)) + |c.buffer|
        == TotalCount(t) + |buffer| + |Drained(poll, events, names)|
  {
    var c := TraceCycle(buffer, lastFlush, now, poll, events, names);
    if !poll.PollError? {
      assert |c.flushed + c.buffer| == |buffer + Drained(poll, events, names)|;
    }
  }

  /**
   * Because the last flush time starts at the clock's zero, a key press in
   * the first cycle is written at once when the clock already reads
   * BUFFER_TIMEOUT seconds or more.
   */
  lemma FirstPressFlushedAtOnce(now: int, ev: RawEvent, names: KeyNames)
    requires now >= BUFFER_TIMEOUT_NS
    requires IsPress(ev)
    ensures TraceCycle([], 0, now, PollReadable, [ev], names).flushed
         == [KeystrokeEvent(KeyName(ev.code, names), PLACEHOLDER_DATE, ev.code, 1)]
  {
    assert [ev][..0] == [];
    assert Presses([ev], names) == [KeystrokeEvent(KeyName(ev.code, names), PLACEHOLDER_DATE, ev.code, 1)];
  }

  /** A cycle that brings the buffer to BUFFER_SIZE flushes it, however recent the last flush. */
  lemma ThresholdFlushes(buffer: seq<KeystrokeEvent>, lastFlush: int, now: int,
                         events: seq<RawEvent>, names: KeyNames)
    requires |buffer| + PressCount(events) >= BUFFER_SIZE
    ensures TraceCycle(buffer, lastFlush, now, PollReadable, events, names).flushed
         == buffer + Presses(events, names)
  {
    PressesMeaning(events, names);
  }

  /**
   * Below BUFFER_SIZE records, a cycle flushes exactly when BUFFER_TIMEOUT
   * seconds have passed since the last flush, and then flushes everything
   * pending; otherwise it keeps everything buffered.
   */
  lemma {:induction false} TimeoutFlushes(buffer: seq<KeystrokeEvent>, lastFlush: int, now: int,
                                          events: seq<RawEvent>, names: KeyNames)
    requires 0 < |buffer| + PressCount(events) < BUFFER_SIZE
    ensures var c := TraceCycle(buffer, lastFlush, now, PollReadable, events, names);
      && (now - lastFlush >= BUFFER_TIMEOUT_NS ==> c.flushed == buffer + Presses(events, names) && c.buffer == [])
      && (now - lastFlush < BUFFER_TIMEOUT_NS ==> c.flushed == [] && c.buffer == buffer + Presses(events, names))
  {
    PressesMeaning(events, names);
  }

  // ---------------------------------------------------------------------
  // Startup checks
  // ---------------------------------------------------------------------

  /**
   * check_input_group_membership, given the id of the `input` group (None
   * when the group does not exist) and the caller's supplementary groups.
   */
  function CheckInputGroupMembership(inputGid: Option<int>, groups: seq<int>): (r: Outcome)
    ensures r.Pass? <==> inputGid.Some? && inputGid.value in groups
    ensures inputGid.None? ==> r == Fail(MakeSystemError("Input group does not exist. Please create it"))
    ensures inputGid.Some? && inputGid.value !in groups ==>
      r == Fail(MakePermissionError("User not in 'input' group. See instructions above"))
  {
    match inputGid
    case None => Fail(MakeSystemError("Input group does not exist. Please create it"))
    case Some(gid) =>
      if gid !in groups then Fail(MakePermissionError("User not in 'input' group. See instructions above"))
      else Pass
  }

  /** Where initialize_libinput stops, if it does. */
  datatype LibinputInit = InitOk | UdevFails | ContextFails | SeatFails

  /** initialize_libinput: each failing step is a SYSTEM error naming the step. */
  function InitializeLibinput(init: LibinputInit): (r: Outcome)
    ensures r.Pass? <==> init.InitOk?
    ensures r.Fail? ==> r.error.code == System
    ensures init.UdevFails? ==> r.error.message == "Failed to initialize udev"
    ensures init.ContextFails? ==> r.error.message == "Failed to initialize libinput from udev"
    ensures init.SeatFails? ==> r.error.message == "Failed to assign seat to libinput"
  {
    match init
    case InitOk => Pass
    case UdevFails => Fail(MakeSystemError("Failed to initialize udev"))
    case ContextFails => Fail(MakeSystemError("Failed to initialize libinput from udev"))
    case SeatFails => Fail(MakeSystemError("Failed to assign seat to libinput"))
  }

  /**
   * check_device_accessibility: libinput must be initialised, its dispatch
   * must not fail, and the first event it hands out must announce a device.
   */
  function CheckDeviceAccessibility(initialized: bool, dispatch: int, first: Option<EventKind>): (r: Outcome)
    ensures r.Pass? <==> initialized && dispatch >= 0 && first == Some(DeviceAdded)
    ensures r.Fail? ==> r.error.code == System
    ensures !initialized ==> r.error.message == "Libinput is not initialized. Cannot check device accessibility"
    ensures initialized && dispatch < 0 ==> r.error.message == "Failed to dispatch libinput events"
    ensures initialized && dispatch >= 0 && first != Some(DeviceAdded) ==>
      r.error.message == "No input devices found or not accessible"
  {
    if !initialized then Fail(MakeSystemError("Libinput is not initialized. Cannot check device accessibility"))
    else if dispatch < 0 then Fail(MakeSystemError("Failed to dispatch libinput events"))
    else if first != Some(DeviceAdded) then Fail(MakeSystemError("No input devices found or not accessible"))
    else Pass
  }

  /** What the system answers to the startup checks. */
  datatype DeviceHost = DeviceHost(
    inputGid: Option<int>,
    groups: seq<int>,
    init: LibinputInit,
    dispatch: int,
    firstEvent: Option<EventKind>)

  /** The three startup checks in order; the first failure is the result. */
  function StartupError(host: DeviceHost): (r: Option<Error>)
    ensures r.None? <==>
      && CheckInputGroupMembership(host.inputGid, host.groups).Pass?
      && host.init.InitOk?
      && CheckDeviceAccessibility(true, host.dispatch, host.firstEvent).Pass?
    // the first failing check's error is the result; later checks are not consulted
    ensures var group := CheckInputGroupMembership(host.inputGid, host.groups);
      var init := InitializeLibinput(host.init);
      var device := CheckDeviceAccessibility(true, host.dispatch, host.firstEvent);
      && (group.Fail? ==> r == Some(group.error))
      && (group.Pass? && init.Fail? ==> r == Some(init.error))
      && (group.Pass? && init.Pass? && device.Fail? ==> r == Some(device.error))
  {
    var group := CheckInputGroupMembership(host.inputGid, host.groups);
    if group.Fail? then Some(group.error)
    else
      var init := InitializeLibinput(host.init);
      if init.Fail? then Some(init.error)
      else
        var device := CheckDeviceAccessibility(true, host.dispatch, host.firstEvent);
        if device.Fail? then Some(device.error) else None
  }

  /**
   * The checks short-circuit: a caller outside the `input` group gets the
   * PERMISSION error whatever libinput would have answered, and a libinput
   * failure hides the device check.
   */
  lemma StartupShortCircuits(host: DeviceHost, other: DeviceHost)
    ensures host.inputGid.Some? && host.inputGid.value !in host.groups ==>
      StartupError(host).Some? && StartupError(host).value.code == Permission
    ensures (&& host.inputGid == other.inputGid && host.groups == other.groups
             && CheckInputGroupMembership(host.inputGid, host.groups).Fail?) ==>
      StartupError(host) == StartupError(other)
    ensures CheckInputGroupMembership(host.inputGid, host.groups).Pass? && !host.init.InitOk? ==>
      StartupError(host) == Some(InitializeLibinput(host.init).error)
  {
  }

  // ---------------------------------------------------------------------
  // The handler
  // ---------------------------------------------------------------------

  class EventHandler {
    /** `buffer_`: the records not yet handed to the callback. */
    var buffer: seq<KeystrokeEvent>
    /** `last_flush_time_`, in steady_clock nanoseconds. */
    var lastFlushTime: int
    /**
     * `buffer_callback_`: null when none is set. The only callback the
     * backend installs writes to a database manager, so the model keeps that
     * manager.
     */
    var sink: DatabaseManager?

    /** The default constructor: empty buffer, the clock's zero, no callback. */
    constructor Init()
      ensures buffer == [] && lastFlushTime == 0 && sink == null
    {
      buffer := [];
      lastFlushTime := 0;
      sink := null;
    }

    /** EventHandler::create: the three checks in order, stopping at the first failure. */
    static method Create(host: DeviceHost) returns (r: Result<EventHandler>)
      ensures r.Err? <==> StartupError(host).Some?
      ensures r.Err? ==> r.error == StartupError(host).value
      ensures r.Ok? ==> fresh(r.value) && r.value.buffer == [] && r.value.lastFlushTime == 0 && r.value.sink == null
    {
      var handler := new EventHandler.Init();
      var group := CheckInputGroupMembership(host.inputGid, host.groups);
      if group.Fail? {
        return Err(group.error);
      }
      var init := InitializeLibinput(host.init);
      if init.Fail? {
        return Err(init.error);
      }
      var device := CheckDeviceAccessibility(true, host.dispatch, host.firstEvent);
      if device.Fail? {
        return Err(device.error);
      }
      return Ok(handler);
    }

    /** set_buffer_callback. */
    method SetBufferCallback(manager: DatabaseManager)
      modifies this
      ensures sink == manager
      ensures buffer == old(buffer) && lastFlushTime == old(lastFlushTime)
    {
      sink := manager;
    }

    /**
     * flush_buffer: a non-empty buffer goes to the callback, if one is set;
     * then the buffer is emptied and the flush time reset whatever the write
     * did, since the callback only logs a failed write.
     */
    method FlushBuffer(now: int, fault: WriteFault)
      modifies this, sink
      ensures sink == old(sink)
      ensures old(buffer) == [] ==> buffer == [] && lastFlushTime == old(lastFlushTime)
      ensures old(buffer) != [] ==> buffer == [] && lastFlushTime == now
      ensures sink != null ==> sink.table == Persisted(old(sink.table), old(buffer), fault)
    {
      if buffer == [] {
        return;
      }
      if sink != null {
        var written := sink.WriteToDatabase(buffer, fault);
      }
      buffer := [];
      lastFlushTime := now;
    }

    /**
     * trace: poll, drain every event libinput has ready, keeping key presses
     * in arrival order, then flush if the flush rule says so.
     */
    method Trace(now: int, poll: PollOutcome, events: seq<RawEvent>, names: KeyNames, fault: WriteFault)
      modifies this, sink
      ensures sink == old(sink)
      ensures var c := TraceCycle(old(buffer), old(lastFlushTime), now, poll, events, names);
        && buffer == c.buffer
        && lastFlushTime == c.lastFlush
        && (sink != null ==> sink.table == Persisted(old(sink.table), c.flushed, fault))
    {
      if poll.PollError? {
        return;
      }
      if poll.PollReadable? {
        var i := 0;
        while i < |events|
          invariant 0 <= i <= |events|
          invariant buffer == old(buffer) + Presses(events[..i], names)
          invariant lastFlushTime == old(lastFlushTime)
          invariant sink == old(sink)
          invariant sink != null ==> sink.table == old(sink.table)
        {
          var ev := events[i];
          assert events[..i + 1][..i] == events[..i];
          if ev.kind == KeyboardKey {
            var keystroke := ProcessKeyboardEvent(ev, names);
            if keystroke.Some? {
              buffer := buffer + [keystroke.value];
            }
          }
          i := i + 1;
        }
        assert events[..i] == events;
      } else {
        assert buffer == old(buffer) + Drained(poll, events, names);
      }
      if ShouldFlush(|buffer|, now, lastFlushTime) {
        FlushBuffer(now, fault);
      }
    }
  }
}
