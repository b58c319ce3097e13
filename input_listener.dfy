/**
 * The input listener: filters raw kernel input records down to key and
 * button presses and keeps their timestamps in a sliding window.
 * Device enumeration, select() and read() are not part of this model: a
 * read record arrives as a parameter, and so does the clock.
 */
module InputListener {
  import opened Wrappers
  import opened SlidingWindow

  /** Event type of a key or button (EV_KEY). */
  const EvKey: int := 1

  /** One decoded `struct input_event`: seconds, microseconds, type, code, value. */
  datatype RawEvent = RawEvent(sec: int, usec: int, evType: int, code: int, value: int)

  /** An opened input device: its file descriptor and path. */
  datatype Device = Device(fd: int, path: string)

  /**
   * parse_event: a record of the wrong length is discarded; one of the right
   * length is decoded. The size (struct.calcsize("llHHi")) and the decoding
   * (struct.unpack, native size and byte order) depend on the platform and
   * are parameters here.
   */
  function ParseEvent(data: seq<bv8>, eventSize: nat, unpack: seq<bv8> -> RawEvent): (r: Option<RawEvent>)
    ensures r.None? <==> |data| != eventSize
    ensures r.Some? ==> r.value == unpack(data)
  {
    if |data| == eventSize then Some(unpack(data)) else None
  }

  /** is_relevant_event: a key or button press, whatever the key. */
  function IsRelevantEvent(evType: int, evCode: int, evValue: int): (relevant: bool)
    ensures relevant <==> evType == EvKey && evValue == 1
  {
    evType == EvKey && evValue == 1
  }

  /** Event type of relative motion (EV_REL): mouse movement and the scroll wheel. */
  const EvRel: int := 2

  /**
   * With an unpack that inverts pack, a full-size read decodes to the event
   * packed, and every shorter read is discarded.
   */
  lemma ParseEventRoundTrip(e: RawEvent, eventSize: nat, pack: RawEvent -> seq<bv8>, unpack: seq<bv8> -> RawEvent)
    requires |pack(e)| == eventSize && unpack(pack(e)) == e
    ensures ParseEvent(pack(e), eventSize, unpack) == Some(e)
    ensures forall k :: 0 <= k < eventSize ==> ParseEvent(pack(e)[..k], eventSize, unpack) == None
  {
  }

  /**
   * Only the press of a key or button counts: its release (value 0) and the
   * kernel's autorepeat while it is held (value 2) do not, and neither does
   * any mouse movement or scrolling.
   */
  lemma OnlyKeyPressesCount(code: int)
    ensures IsRelevantEvent(EvKey, code, 1)
    ensures !IsRelevantEvent(EvKey, code, 0) && !IsRelevantEvent(EvKey, code, 2)
    ensures forall value :: !IsRelevantEvent(EvRel, code, value)
  {
  }

  /** Which key or button was pressed plays no part in the decision. */
  lemma RelevanceIgnoresCode(evType: int, code1: int, code2: int, evValue: int)
    ensures IsRelevantEvent(evType, code1, evValue) == IsRelevantEvent(evType, code2, evValue)
  {
  }

  /** A read record yields a pulse exactly when it parses and is a press. */
  predicate IsPulse(data: seq<bv8>, eventSize: nat, unpack: seq<bv8> -> RawEvent) {
    var parsed := ParseEvent(data, eventSize, unpack);
    parsed.Some? && IsRelevantEvent(parsed.value.evType, parsed.value.code, parsed.value.value)
  }

  class Listener {
    var timestamps: seq<real>
    var devices: seq<Device>
    var stopRequested: bool

    constructor ()
      ensures timestamps == [] && devices == [] && !stopRequested
    {
      timestamps := [];
      devices := [];
      stopRequested := false;
    }

    /** add_timestamp, with the clock reading `now` passed in. */
    method AddTimestamp(now: real)
      modifies this
      ensures timestamps == old(timestamps) + [now]
      ensures devices == old(devices) && stopRequested == old(stopRequested)
    {
      timestamps := timestamps + [now];
    }

    /** remove_old_timestamps: keep the timestamps strictly newer than `cutoff`. */
    method RemoveOldTimestamps(cutoff: real)
      modifies this
      ensures timestamps == KeepNewer(old(timestamps), cutoff)
      ensures devices == old(devices) && stopRequested == old(stopRequested)
    {
      var kept := FilterNewer(timestamps, cutoff);
      timestamps := kept;
    }

    /** get_event_count. */
    method GetEventCount() returns (count: nat)
      ensures count == |timestamps|
    {
      count := |timestamps|;
    }

    /**
     * The body of the listener loop for one record read from a device at
     * time `now`: a malformed record or one that is not a press is dropped.
     */
    method HandleRecord(data: seq<bv8>, eventSize: nat, unpack: seq<bv8> -> RawEvent, now: real)
      modifies this
      ensures timestamps == old(timestamps) + (if IsPulse(data, eventSize, unpack) then [now] else [])
      ensures devices == old(devices) && stopRequested == old(stopRequested)
    {
      var parsed := ParseEvent(data, eventSize, unpack);
      if parsed.Some? {
        var ev := parsed.value;
        if IsRelevantEvent(ev.evType, ev.code, ev.value) {
          AddTimestamp(now);
        }
      }
    }

    /**
     * start, with the devices that could be opened passed in: with none it
     * raises; otherwise the listener thread would be started.
     */
    method Start(found: seq<Device>) returns (r: Outcome<string>)
      modifies this
      ensures devices == found && timestamps == old(timestamps)
      ensures stopRequested == old(stopRequested)
      ensures r.Fail? <==> found == []
    {
      devices := found;
      if devices == [] {
        return Fail("No input devices found. Try running with sudo.");
      }
      return Pass;
    }

    /** stop: signal the listener thread (closing the descriptors is left out). */
    method Stop()
      modifies this
      ensures stopRequested
      ensures timestamps == old(timestamps) && devices == old(devices)
    {
      stopRequested := true;
    }
  }

}
