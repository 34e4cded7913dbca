/** The capture dispatcher (`dispatcher_write`): packet header windows are
    batched into one buffer as records `[interface name, 16 bytes][data]`
    behind a 36-byte textual system UUID, and a full buffer is handed to the
    transmitter and cleared. Nothing else (no timestamp, no length) is written.

    The transmitter is represented by the list of batches handed to it; the
    mutex around the body is not modelled (each call is one sequential step). */
module Dispatcher {
  import opened Common
  import opened DBuffer

  const IF_NAMESIZE: nat := 16
  const UUID_LEN: nat := 36

  /** `DBUFFER_SIZE`: 64 KiB in release builds, 2 KiB otherwise. */
  function BufferSize(release: bool): (n: nat)
    ensures n == if release then 65536 else 2048
  {
    if release then 65536 else 2048
  }

  /** The fixed-width interface-name field: the first (at most 16) bytes of the
      device name, zero-padded. */
  function IfName(device: seq<byte>): (r: seq<byte>)
    ensures |r| == IF_NAMESIZE
    ensures |device| >= IF_NAMESIZE ==> r == device[..IF_NAMESIZE]
    ensures |device| < IF_NAMESIZE ==> r[..|device|] == device && forall i :: |device| <= i < IF_NAMESIZE ==> r[i] == 0
  {
    if |device| >= IF_NAMESIZE then device[..IF_NAMESIZE]
    else device + seq(IF_NAMESIZE - |device|, _ => 0)
  }

  /** A C string: no NUL byte inside. */
  predicate IsCString(s: seq<byte>) { forall i :: 0 <= i < |s| ==> s[i] != 0 }

  /** A device name shorter than the field is recovered from it by stripping the
      zero padding; a longer one is cut to 16 bytes. */
  lemma IfNameRecoversDevice(device: seq<byte>)
    requires IsCString(device)
    ensures StripZeros(IfName(device)) == if |device| < IF_NAMESIZE then device else device[..IF_NAMESIZE]
  {
    var f := IfName(device);
    var n := if |device| < IF_NAMESIZE then |device| else IF_NAMESIZE;
    StripZerosOf(f, n);
  }

  /** The bytes of a name field before its first zero. */
  function StripZeros(field: seq<byte>): seq<byte> {
    if field == [] || field[0] == 0 then [] else [field[0]] + StripZeros(field[1..])
  }

  lemma {:induction false} StripZerosOf(field: seq<byte>, n: nat)
    requires n <= |field|
    requires forall i :: 0 <= i < n ==> field[i] != 0
    requires n < |field| ==> field[n] == 0
    ensures StripZeros(field) == field[..n]
  {
    if n > 0 {
      StripZerosOf(field[1..], n - 1);
      assert field[..n] == [field[0]] + field[1..][..n - 1];
    }
  }

  /** One record: the name field followed by the data. */
  function Record(device: seq<byte>, data: seq<byte>): seq<byte> {
    IfName(device) + data
  }

  /** The outcome of one `dispatcher_write`: the batch handed to the transmitter,
      if any, and the new buffer contents. */
  datatype Step = Step(flushed: Option<seq<byte>>, contents: seq<byte>)

  /** `buffer_write` on contents: all of `bytes`, or nothing when they do not fit. */
  function Append(contents: seq<byte>, cap: nat, bytes: seq<byte>): (r: seq<byte>)
    ensures |contents| <= cap ==> |r| <= cap
    ensures r == contents || r == contents + bytes
  {
    if |contents| + |bytes| <= cap then contents + bytes else contents
  }

  /** `dispatcher_write` as written: the flush test reserves room for the name
      field and the data but not for the UUID that an empty buffer receives
      first, and the results of the three writes are ignored. */
  function DispatchAsWritten(contents: seq<byte>, cap: nat, uuid: seq<byte>, device: seq<byte>, data: seq<byte>): Step {
    var flush := |contents| + |data| + IF_NAMESIZE > cap;
    var c0 := if flush then [] else contents;
    var c1 := if c0 == [] then Append(c0, cap, uuid) else c0;
    var c2 := Append(c1, cap, IfName(device));
    var c3 := Append(c2, cap, data);
    Step(if flush then Some(contents) else None, c3)
  }

  /** Full buffer: exactly the bytes in use are sent, once, and the record
      then starts a new batch with the UUID in front (when the UUID fits). */
  lemma FlushSendsContents(contents: seq<byte>, cap: nat, uuid: seq<byte>, device: seq<byte>, data: seq<byte>)
    requires |uuid| == UUID_LEN && UUID_LEN <= cap
    requires |contents| + |data| + IF_NAMESIZE > cap
    ensures var st := DispatchAsWritten(contents, cap, uuid, device, data);
      st.flushed == Some(contents) && |st.contents| >= UUID_LEN && st.contents[..UUID_LEN] == uuid
  {
  }

  /** A record that fits is appended behind the untouched contents, and
      nothing is sent. */
  lemma FitAppendsRecord(contents: seq<byte>, cap: nat, uuid: seq<byte>, device: seq<byte>, data: seq<byte>)
    requires contents != []
    requires |contents| + |data| + IF_NAMESIZE <= cap
    ensures DispatchAsWritten(contents, cap, uuid, device, data) == Step(None, contents + Record(device, data))
  {
    assert contents + IfName(device) + data == contents + Record(device, data);
  }

  /** The first record of a batch comes behind the UUID. */
  lemma FirstRecordAfterUuid(cap: nat, uuid: seq<byte>, device: seq<byte>, data: seq<byte>)
    requires |uuid| == UUID_LEN
    requires UUID_LEN + IF_NAMESIZE + |data| <= cap
    ensures DispatchAsWritten([], cap, uuid, device, data) == Step(None, uuid + Record(device, data))
  {
    var c1 := Append([], cap, uuid);
    assert c1 == uuid;
    assert Append(c1, cap, IfName(device)) == uuid + IfName(device);
    assert uuid + IfName(device) + data == uuid + Record(device, data);
  }

  /** The buffer never holds more than its capacity. */
  lemma DispatchWithinCapacity(contents: seq<byte>, cap: nat, uuid: seq<byte>, device: seq<byte>, data: seq<byte>)
    requires |contents| <= cap
    ensures |DispatchAsWritten(contents, cap, uuid, device, data).contents| <= cap
  {
  }

  /** The flush test leaves the UUID out: on an empty 2048-byte buffer a
      2000-byte record passes it, the UUID and the name field are written, and
      the data is refused, leaving a name field with no data behind it. */
  lemma PartialRecordAsWritten(uuid: seq<byte>, device: seq<byte>, data: seq<byte>)
    requires |uuid| == UUID_LEN && |data| == 2000
    ensures DispatchAsWritten([], BufferSize(false), uuid, device, data) == Step(None, uuid + IfName(device))
  {
  }

  /** `dispatcher_write` with the UUID counted in the flush test, and a record
      that cannot fit even in an empty buffer dropped whole. */
  function DispatchWhole(contents: seq<byte>, cap: nat, uuid: seq<byte>, device: seq<byte>, data: seq<byte>): Step {
    var need := IF_NAMESIZE + |data| + (if contents == [] then UUID_LEN else 0);
    if |contents| + need <= cap then
      Step(None, (if contents == [] then uuid else contents) + Record(device, data))
    else if UUID_LEN + IF_NAMESIZE + |data| <= cap then
      Step(Some(contents), uuid + Record(device, data))
    else
      Step(Some(contents), [])
  }

  /** The two agree whenever the record fits behind the UUID of an empty
      buffer: the missing UUID in the flush test only matters for larger ones. */
  lemma {:induction false} WholeAgreesForSmallRecords(contents: seq<byte>, cap: nat, uuid: seq<byte>, device: seq<byte>, data: seq<byte>)
    requires |uuid| == UUID_LEN
    requires UUID_LEN + IF_NAMESIZE + |data| <= cap
    ensures DispatchAsWritten(contents, cap, uuid, device, data) == DispatchWhole(contents, cap, uuid, device, data)
  {
    if contents == [] || |contents| + |data| + IF_NAMESIZE > cap {
      FirstRecordAfterUuid(cap, uuid, device, data);
    } else {
      FitAppendsRecord(contents, cap, uuid, device, data);
    }
  }

  function Flatten(records: seq<seq<byte>>): seq<byte> {
    if records == [] then [] else records[0] + Flatten(records[1..])
  }

  lemma {:induction false} FlattenSnoc(records: seq<seq<byte>>, r: seq<byte>)
    ensures Flatten(records + [r]) == Flatten(records) + r
  {
    if records == [] {
      assert [r][1..] == [];
      assert Flatten([r]) == r + Flatten([]);
    } else {
      assert (records + [r])[1..] == records[1..] + [r];
      FlattenSnoc(records[1..], r);
    }
  }

  /** A batch is empty, or the UUID followed by whole records. */
  ghost predicate Framed(contents: seq<byte>, uuid: seq<byte>, records: seq<seq<byte>>) {
    contents == if records == [] then [] else uuid + Flatten(records)
  }

  /** With the corrected test every batch, in the buffer and sent, is the UUID
      followed by whole records: the new record joins the batch, or the batch
      is sent as it was and the record (if it can fit at all) opens the next. */
  lemma {:induction false} DispatchWholeKeepsFraming(contents: seq<byte>, cap: nat, uuid: seq<byte>, records: seq<seq<byte>>, device: seq<byte>, data: seq<byte>)
    requires |uuid| == UUID_LEN
    requires Framed(contents, uuid, records) && |contents| <= cap
    ensures var st := DispatchWhole(contents, cap, uuid, device, data);
      |st.contents| <= cap &&
      match st.flushed
      case None => Framed(st.contents, uuid, records + [Record(device, data)])
      case Some(batch) =>
        batch == contents &&
        (Framed(st.contents, uuid, [Record(device, data)]) || (st.contents == [] && UUID_LEN + IF_NAMESIZE + |data| > cap))
  {
    var rec := Record(device, data);
    var st := DispatchWhole(contents, cap, uuid, device, data);
    var one: seq<seq<byte>> := [rec];
    assert one[1..] == [];
    assert Flatten(one) == rec + Flatten([]);
    if st.flushed.None? && records != [] {
      FlattenSnoc(records, rec);
    }
  }

  class Dispatcher {
    var buffer: Buffer
    /** The batches handed to the transmitter, oldest first. */
    var sent: seq<seq<byte>>
    /** The system UUID in its 36-character text form. */
    const uuid: seq<byte>

    ghost predicate Valid()
      reads this, buffer
    {
      buffer.Valid() && buffer.memory != null && |uuid| == UUID_LEN
    }

    /** `dispatcher_initialize`, given the configured UUID. */
    constructor (systemUuid: seq<byte>, release: bool)
      requires |systemUuid| == UUID_LEN
      ensures Valid() && fresh(buffer) && fresh(buffer.memory)
      ensures buffer.capacity == BufferSize(release) && buffer.Contents() == [] && sent == []
      ensures uuid == systemUuid
    {
      buffer := new Buffer.Init(BufferSize(release));
      sent := [];
      uuid := systemUuid;
    }

    /** `dispatcher_write`, step for step. */
    method Write(device: seq<byte>, data: seq<byte>)
      requires Valid() && IsCString(device)
      modifies this`sent, buffer, buffer.memory
      ensures Valid() && buffer.memory == old(buffer.memory) && buffer.capacity == old(buffer.capacity)
      ensures var st := DispatchAsWritten(old(buffer.Contents()), buffer.capacity, uuid, device, data);
        buffer.Contents() == st.contents &&
        sent == old(sent) + (if st.flushed.Some? then [st.flushed.value] else [])
    {
      ghost var st := DispatchAsWritten(buffer.Contents(), buffer.capacity, uuid, device, data);
      if !buffer.CanWrite(|data| + IF_NAMESIZE) {
        sent := sent + [buffer.memory[..buffer.offset]];
        buffer.Clear();
      }
      if buffer.IsEmpty() {
        var _ := buffer.Write(uuid);
      }
      var name := IfName(device);
      var _ := buffer.Write(name);
      var _ := buffer.Write(data);
    }

    /** Appends one whole record, behind the UUID when the buffer is empty. */
    method PushRecord(device: seq<byte>, data: seq<byte>)
      requires Valid()
      requires buffer.CanWrite(IF_NAMESIZE + |data| + (if buffer.IsEmpty() then UUID_LEN else 0))
      modifies buffer`offset, buffer.memory
      ensures Valid() && buffer.memory == old(buffer.memory) && buffer.capacity == old(buffer.capacity)
      ensures buffer.Contents() == (if old(buffer.IsEmpty()) then uuid else old(buffer.Contents())) + Record(device, data)
    {
      if buffer.IsEmpty() {
        var ok := buffer.Write(uuid);
      }
      AppendRecord(device, data);
    }

    /** Appends the padded interface name and the data behind what is there. */
    method AppendRecord(device: seq<byte>, data: seq<byte>)
      requires Valid() && buffer.CanWrite(IF_NAMESIZE + |data|)
      modifies buffer`offset, buffer.memory
      ensures Valid() && buffer.memory == old(buffer.memory) && buffer.capacity == old(buffer.capacity)
      ensures buffer.Contents() == old(buffer.Contents()) + Record(device, data)
    {
      var name := IfName(device);
      var ok1 := buffer.Write(name);
      var ok2 := buffer.Write(data);
      assert old(buffer.Contents()) + name + data == old(buffer.Contents()) + Record(device, data);
    }

    /** The corrected write: the UUID is reserved for in the flush test and a
        record that can never fit is dropped. */
    method WriteWhole(device: seq<byte>, data: seq<byte>)
      requires Valid() && IsCString(device)
      modifies this`sent, buffer, buffer.memory
      ensures Valid() && buffer.memory == old(buffer.memory) && buffer.capacity == old(buffer.capacity)
      ensures var st := DispatchWhole(old(buffer.Contents()), buffer.capacity, uuid, device, data);
        buffer.Contents() == st.contents &&
        sent == old(sent) + (if st.flushed.Some? then [st.flushed.value] else [])
    {
      var need := IF_NAMESIZE + |data| + (if buffer.IsEmpty() then UUID_LEN else 0);
      if !buffer.CanWrite(need) {
        sent := sent + [buffer.memory[..buffer.offset]];
        buffer.Clear();
        if !buffer.CanWrite(UUID_LEN + IF_NAMESIZE + |data|) {
          return;
        }
      }
      PushRecord(device, data);
    }
  }
}
