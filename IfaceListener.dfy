/** The capture side of the agent (`iface_listener.c`): which interfaces get a
    listener, which filter each listener carries, and, for every captured
    frame, which header window is handed to the dispatcher. pcap itself (device
    enumeration, opening, filter compilation, `pcap_next`) is replaced by the
    values it would return. */
module IfaceListener {
  import opened Common
  import opened Dispatcher
  import opened TrafficFilter

  const ETHER_HEADER: nat := 14
  const TCP_HEADER: nat := 20
  const UDP_HEADER: nat := 8
  const ETHERTYPE_IP: nat := 0x0800
  const IPPROTO_TCP: byte := 6
  const IPPROTO_UDP: byte := 17
  /** The routine reads the Ethernet header and the IPv4 header up to its
      protocol field (offset 9): the first 24 bytes of a frame. */
  const HEADER_READ: nat := 24
  /** The largest window: a 60-byte IPv4 header and a TCP header. */
  const MAX_WINDOW: nat := ETHER_HEADER + 60 + TCP_HEADER
  /** `DLT_EN10MB`, the only link type listened on. */
  const DLT_EN10MB: nat := 1
  /** Size of the filter text buffer in `apply_filter`. */
  const FILTER_BUFFER: nat := 256

  // ---------------------------------------------------------------------------
  // Header window

  /** The big-endian EtherType at bytes 12 and 13. */
  function EtherType(frame: seq<byte>): nat
    requires |frame| >= ETHER_HEADER
  {
    (frame[12] as int) * 256 + frame[13] as int
  }

  /** The IPv4 header length in 32-bit words: the low nibble of byte 14. */
  function HeaderWords(frame: seq<byte>): nat
    requires |frame| > ETHER_HEADER
  {
    frame[14] % 16
  }

  function Protocol(frame: seq<byte>): byte
    requires |frame| >= HEADER_READ
  {
    frame[23]
  }

  /** The window `iface_listener_routine` computes, as written: for an IPv4
      frame carrying TCP or UDP, the Ethernet, IPv4 and transport headers. The
      header fields are read at fixed offsets and the result is not compared
      with the length of the captured frame. */
  function WindowAsWritten(frame: seq<byte>): Option<nat>
    requires |frame| >= HEADER_READ
  {
    if EtherType(frame) != ETHERTYPE_IP then None
    else if Protocol(frame) != IPPROTO_TCP && Protocol(frame) != IPPROTO_UDP then None
    else
      var base := ETHER_HEADER + HeaderWords(frame) * 4;
      Some(if Protocol(frame) == IPPROTO_TCP then base + TCP_HEADER else base + UDP_HEADER)
  }

  /** The header fields a frame is built from. */
  datatype Headers = Headers(etherType: nat, version: nat, ihl: nat, protocol: byte)

  predicate ValidHeaders(h: Headers) {
    h.etherType < 0x1_0000 && h.version < 16 && h.ihl < 16
  }

  /** A frame with the given header fields: 12 address bytes, the EtherType,
      the version/IHL byte, the 8 bytes up to the protocol, the protocol, and
      the rest. */
  function FrameOf(h: Headers, macs: seq<byte>, ipFields: seq<byte>, rest: seq<byte>): (f: seq<byte>)
    requires ValidHeaders(h) && |macs| == 12 && |ipFields| == 8
    ensures |f| == HEADER_READ + |rest|
  {
    macs + [h.etherType / 256, h.etherType % 256] + [h.version * 16 + h.ihl] + ipFields + [h.protocol] + rest
  }

  /** Reading a built frame gives back its fields, so the window is the
      length of the three headers the fields describe. */
  lemma WindowOfFrame(h: Headers, macs: seq<byte>, ipFields: seq<byte>, rest: seq<byte>)
    requires ValidHeaders(h) && |macs| == 12 && |ipFields| == 8
    ensures WindowAsWritten(FrameOf(h, macs, ipFields, rest)) ==
      if h.etherType == ETHERTYPE_IP && h.protocol == IPPROTO_TCP then Some(ETHER_HEADER + 4 * h.ihl + TCP_HEADER)
      else if h.etherType == ETHERTYPE_IP && h.protocol == IPPROTO_UDP then Some(ETHER_HEADER + 4 * h.ihl + UDP_HEADER)
      else None
  {
    var f := FrameOf(h, macs, ipFields, rest);
    assert f[12] == h.etherType / 256 && f[13] == h.etherType % 256;
    assert f[14] == h.version * 16 + h.ihl;
    assert f[23] == h.protocol;
  }

  /** Windows run from 22 bytes (UDP, no IPv4 header words) to 94 (TCP behind
      a 60-byte IPv4 header). */
  lemma WindowBounds(frame: seq<byte>)
    requires |frame| >= HEADER_READ && WindowAsWritten(frame).Some?
    ensures ETHER_HEADER + UDP_HEADER <= WindowAsWritten(frame).value <= MAX_WINDOW
  {
  }

  /** The window as it should be: a frame too short for the headers it reads,
      or for the window it announces, is skipped. */
  function Window(frame: seq<byte>): (r: Option<nat>)
    ensures r.Some? ==> r.value <= |frame|
    ensures r.Some? ==> |frame| >= HEADER_READ && r == WindowAsWritten(frame)
  {
    if |frame| < HEADER_READ then None
    else
      match WindowAsWritten(frame)
      case None => None
      case Some(n) => if n > |frame| then None else Some(n)
  }

  /** On a frame that holds the largest window the two agree. */
  lemma WindowAgrees(frame: seq<byte>)
    requires |frame| >= MAX_WINDOW
    ensures Window(frame) == WindowAsWritten(frame)
  {
    if WindowAsWritten(frame).Some? {
      WindowBounds(frame);
    }
  }

  /** A 60-byte TCP frame whose IHL field claims 15 words: the window as
      written is 94 bytes, 34 more than were captured. */
  lemma ShortFrameOverread()
    ensures var f := FrameOf(Headers(ETHERTYPE_IP, 4, 15, IPPROTO_TCP), seq(12, _ => 0), seq(8, _ => 0), seq(36, _ => 0));
      |f| == 60 && WindowAsWritten(f) == Some(94) && Window(f).None?
  {
    var f := FrameOf(Headers(ETHERTYPE_IP, 4, 15, IPPROTO_TCP), seq(12, _ => 0), seq(8, _ => 0), seq(36, _ => 0));
    WindowOfFrame(Headers(ETHERTYPE_IP, 4, 15, IPPROTO_TCP), seq(12, _ => 0), seq(8, _ => 0), seq(36, _ => 0));
  }

  // ---------------------------------------------------------------------------
  // The capture loop

  /** One call of the write callback: the device name and the window. */
  datatype Call = Call(device: seq<byte>, data: seq<byte>)

  /** What one result of `pcap_next` causes: nothing for a timeout (None) or
      for a frame that is not IPv4 TCP or UDP, else one call with the window. */
  function CallFor(device: seq<byte>, capture: Option<seq<byte>>): (r: seq<Call>)
    ensures |r| <= 1
  {
    match capture
    case None => []
    case Some(frame) =>
      match Window(frame)
      case None => []
      case Some(n) => [Call(device, frame[..n])]
  }

  /** The calls made for a run of `pcap_next` results, in order. */
  function Calls(device: seq<byte>, captures: seq<Option<seq<byte>>>): seq<Call> {
    if captures == [] then []
    else Calls(device, captures[..|captures| - 1]) + CallFor(device, captures[|captures| - 1])
  }

  lemma CallsNext(device: seq<byte>, captures: seq<Option<seq<byte>>>, i: nat)
    requires i < |captures|
    ensures Calls(device, captures[..i + 1]) == Calls(device, captures[..i]) + CallFor(device, captures[i])
  {
    assert captures[..i + 1][..i] == captures[..i];
  }

  /** `iface_listener_routine` with the corrected `Window`: the loop over the
      captures taken while the agent runs (the sequence ends when it stops).
      Unlike the code as written, it skips a frame shorter than the headers
      it reads or than the window it announces. */
  method Routine(device: seq<byte>, captures: seq<Option<seq<byte>>>) returns (calls: seq<Call>)
    ensures calls == Calls(device, captures)
  {
    calls := [];
    var i := 0;
    while i < |captures|
      invariant 0 <= i <= |captures|
      invariant calls == Calls(device, captures[..i])
    {
      CallsNext(device, captures, i);
      var capture := captures[i];
      // A timeout, another EtherType or another protocol leaves `step` empty,
      // as the `continue`s of the routine do. The two length checks are the
      // corrected window's: the routine as written makes neither.
      var step: seq<Call> := [];
      if capture.Some? {
        var frame := capture.value;
        if |frame| >= HEADER_READ && EtherType(frame) == ETHERTYPE_IP &&
           (Protocol(frame) == IPPROTO_TCP || Protocol(frame) == IPPROTO_UDP) {
          var len := ETHER_HEADER + HeaderWords(frame) * 4;
          if Protocol(frame) == IPPROTO_TCP {
            len := len + TCP_HEADER;
          } else {
            len := len + UDP_HEADER;
          }
          if len <= |frame| {
            step := [Call(device, frame[..len])];
          }
        }
      }
      assert step == CallFor(device, capture);
      calls := calls + step;
      i := i + 1;
    }
    assert captures[..i] == captures;
  }

  lemma {:induction false} CallsAppend(device: seq<byte>, a: seq<Option<seq<byte>>>, b: seq<Option<seq<byte>>>)
    ensures Calls(device, a + b) == Calls(device, a) + Calls(device, b)
    decreases |b|
  {
    if b == [] {
      assert a + b == a;
    } else {
      var b' := b[..|b| - 1];
      assert (a + b)[..|a + b| - 1] == a + b';
      CallsAppend(device, a, b');
    }
  }

  /** A timeout in the middle of a run changes nothing. */
  lemma TimeoutIgnored(device: seq<byte>, a: seq<Option<seq<byte>>>, b: seq<Option<seq<byte>>>)
    ensures Calls(device, a + [None] + b) == Calls(device, a + b)
  {
    CallsTimeout(device, a);
    CallsAppend(device, a + [None], b);
    CallsAppend(device, a, b);
  }

  lemma CallsTimeout(device: seq<byte>, a: seq<Option<seq<byte>>>)
    ensures Calls(device, a + [None]) == Calls(device, a)
  {
    assert (a + [None])[..|a|] == a;
  }

  /** Every call carries the listener's device and a prefix of a captured
      frame of 22 to 94 bytes. */
  lemma {:induction false} CallsShape(device: seq<byte>, captures: seq<Option<seq<byte>>>)
    ensures |Calls(device, captures)| <= |captures|
    ensures forall k :: 0 <= k < |Calls(device, captures)| ==>
      var c := Calls(device, captures)[k];
      c.device == device && ETHER_HEADER + UDP_HEADER <= |c.data| <= MAX_WINDOW &&
      exists j :: 0 <= j < |captures| && captures[j].Some? && c.data <= captures[j].value
  {
    if captures != [] {
      var init := captures[..|captures| - 1];
      var last := captures[|captures| - 1];
      CallsShape(device, init);
      var calls := Calls(device, captures);
      forall k | 0 <= k < |calls|
        ensures calls[k].device == device && ETHER_HEADER + UDP_HEADER <= |calls[k].data| <= MAX_WINDOW &&
          exists j :: 0 <= j < |captures| && captures[j].Some? && calls[k].data <= captures[j].value
      {
        if k < |Calls(device, init)| {
          var j :| 0 <= j < |init| && init[j].Some? && calls[k].data <= init[j].value;
          assert captures[j] == init[j];
        } else {
          var frame := last.value;
          WindowBounds(frame);
          assert calls[k].data <= captures[|captures| - 1].value;
        }
      }
    }
  }

  /** Every window fits behind the UUID of an empty dispatcher buffer of
      either size, so the dispatcher's missing UUID in its flush test never
      splits a record that comes from the capture loop. */
  lemma CapturedRecordsAreWhole(device: seq<byte>, captures: seq<Option<seq<byte>>>, release: bool,
                                contents: seq<byte>, uuid: seq<byte>, k: nat)
    requires |uuid| == UUID_LEN
    requires k < |Calls(device, captures)|
    ensures var c := Calls(device, captures)[k];
      DispatchAsWritten(contents, BufferSize(release), uuid, c.device, c.data) ==
      DispatchWhole(contents, BufferSize(release), uuid, c.device, c.data)
  {
    CallsShape(device, captures);
    var c := Calls(device, captures)[k];
    WholeAgreesForSmallRecords(contents, BufferSize(release), uuid, c.device, c.data);
  }

  // ---------------------------------------------------------------------------
  // Listeners and their filters

  /** What `apply_filter` depends on: the two endpoint URLs, name resolution,
      and the configured capture interface (None when unset). */
  datatype FilterEnv = FilterEnv(serverUrl: string, monitorUrl: string, resolve: string -> Resolution,
                                 configured: Option<seq<byte>>)

  /** The filter a listener on `device` ends up with: the formatted filter,
      when it formats, the device is the configured one (or none is
      configured), and it compiles on the device. */
  function FilterFor(device: seq<byte>, env: FilterEnv, compiles: bool): (r: Option<string>)
    ensures r.Some? ==> r == FormatFilter(env.serverUrl, env.monitorUrl, env.resolve, FILTER_BUFFER)
    ensures r.Some? ==> compiles && (env.configured.None? || env.configured.value == device)
  {
    match FormatFilter(env.serverUrl, env.monitorUrl, env.resolve, FILTER_BUFFER)
    case None => None
    case Some(f) =>
      if env.configured.Some? && env.configured.value != device then None
      else if compiles then Some(f) else None
  }

  /** With the filter formatted and compiling, the only reason to go without
      it is another configured interface. */
  lemma FilterForConfigured(device: seq<byte>, env: FilterEnv)
    requires FormatFilter(env.serverUrl, env.monitorUrl, env.resolve, FILTER_BUFFER).Some?
    ensures FilterFor(device, env, true).Some? <==> env.configured.None? || env.configured.value == device
  {
  }

  /** `iface_listener_info_t`: the device listened on and the filter attached
      to it (None for a NULL `filter`). */
  class Listener {
    const device: seq<byte>
    var filter: Option<string>

    constructor (device: seq<byte>)
      ensures this.device == device && filter == None
    {
      this.device := device;
      filter := None;
    }

    /** `apply_filter`: attaches the filter when it formats, the device is
        the configured one and the filter compiles; otherwise the listener
        keeps the filter it had. */
    method ApplyFilter(env: FilterEnv, compiles: bool)
      modifies this
      ensures filter == if FilterFor(device, env, compiles).Some? then FilterFor(device, env, compiles) else old(filter)
    {
      var formatted := FormatFilter(env.serverUrl, env.monitorUrl, env.resolve, FILTER_BUFFER);
      if formatted.None? {
        return;
      }
      if env.configured.Some? && env.configured.value != device {
        return;
      }
      if compiles {
        filter := formatted;
      }
    }
  }

  /** A device as enumeration and opening report it. */
  datatype Iface = Iface(name: seq<byte>, hasAddresses: bool, loopback: bool, opens: bool,
                         datalink: nat, filterCompiles: bool)

  /** The devices that get a listener: with an address, not loopback, opened,
      and of link type Ethernet. */
  predicate Eligible(i: Iface) {
    i.hasAddresses && !i.loopback && i.opens && i.datalink == DLT_EN10MB
  }

  /** The eligible devices, in enumeration order. */
  function Selected(ifaces: seq<Iface>): (r: seq<Iface>)
    ensures |r| <= |ifaces|
  {
    if ifaces == [] then []
    else
      var last := ifaces[|ifaces| - 1];
      Selected(ifaces[..|ifaces| - 1]) + (if Eligible(last) then [last] else [])
  }

  lemma {:induction false} SelectedAppend(a: seq<Iface>, b: seq<Iface>)
    ensures Selected(a + b) == Selected(a) + Selected(b)
    decreases |b|
  {
    if b == [] {
      assert a + b == a;
    } else {
      assert (a + b)[..|a + b| - 1] == a + b[..|b| - 1];
      SelectedAppend(a, b[..|b| - 1]);
    }
  }

  /** Exactly the eligible devices are selected. */
  lemma {:induction false} SelectedMembers(ifaces: seq<Iface>)
    ensures forall i :: i in Selected(ifaces) <==> i in ifaces && Eligible(i)
  {
    if ifaces != [] {
      SelectedMembers(ifaces[..|ifaces| - 1]);
      assert ifaces == ifaces[..|ifaces| - 1] + [ifaces[|ifaces| - 1]];
    }
  }

  /** `build_listeners_list`: one listener per eligible device, in order, each
      with the filter `apply_filter` gives it. A failed enumeration (None) or
      an empty one gives no listeners (the NULL list). */
  method BuildListeners(devices: Option<seq<Iface>>, env: FilterEnv) returns (listeners: seq<Listener>)
    ensures devices.None? ==> listeners == []
    ensures devices.Some? ==> |listeners| == |Selected(devices.value)|
    ensures devices.Some? ==> forall k :: 0 <= k < |listeners| ==>
      fresh(listeners[k]) &&
      listeners[k].device == Selected(devices.value)[k].name &&
      listeners[k].filter == FilterFor(Selected(devices.value)[k].name, env, Selected(devices.value)[k].filterCompiles)
  {
    listeners := [];
    if devices.None? || devices.value == [] {
      return;
    }
    var ifaces := devices.value;
    var i := 0;
    while i < |ifaces|
      invariant 0 <= i <= |ifaces|
      invariant |listeners| == |Selected(ifaces[..i])|
      invariant forall k :: 0 <= k < |listeners| ==>
        fresh(listeners[k]) &&
        listeners[k].device == Selected(ifaces[..i])[k].name &&
        listeners[k].filter == FilterFor(Selected(ifaces[..i])[k].name, env, Selected(ifaces[..i])[k].filterCompiles)
    {
      assert ifaces[..i + 1][..i] == ifaces[..i];
      var iface := ifaces[i];
      if Eligible(iface) {
        var l := new Listener(iface.name);
        l.ApplyFilter(env, iface.filterCompiles);
        listeners := listeners + [l];
      }
      i := i + 1;
    }
    assert ifaces[..i] == ifaces;
  }
}
