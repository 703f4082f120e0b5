/**
 The byte stream inspector (examples/byte_stream_inspector.py): it checks that the
 joystick device exists, opens it, and then reads one record after another until the
 user interrupts it, printing each decoded record as a timestamped line.

 The device is the sequence of bytes it will deliver; a read of n bytes returns the next
 n bytes, or fewer at the end of the data. The clock is a parameter mapping the record
 number to the text of its timestamp. The keyboard interrupt is a parameter too: it is
 delivered while the inspector is blocked in the read numbered `interruptAt` (counting
 from 0), before that read has consumed anything.
 */
module Inspector {
  import opened PacketLayout
  import opened LineFormat

  /** An open binary file handle on the device: its bytes and the current read position. */
  class Handle {
    const data: seq<Byte>
    var pos: nat

    predicate Valid()
      reads this
    {
      pos <= |data|
    }

    constructor (data: seq<Byte>)
      ensures Valid() && this.data == data && pos == 0
    {
      this.data := data;
      pos := 0;
    }

    /** `handle.read(n)`: the next n bytes, or all that is left when fewer remain. */
    method Read(n: nat) returns (chunk: seq<Byte>)
      requires Valid()
      modifies this
      ensures Valid()
      ensures pos == old(pos) + (if n <= |data| - old(pos) then n else |data| - old(pos))
      ensures chunk == data[old(pos)..pos]
    {
      var take := if n <= |data| - pos then n else |data| - pos;
      chunk := data[pos..pos + take];
      pos := pos + take;
    }
  }

  /** `read(handle)`: request calcsize(PACKET_FORMAT) bytes, unpack them, and produce the
      timestamped line; a short read makes unpack raise struct.error before anything is printed. */
  method ReadRecord(h: Handle, stamp: string) returns (r: Result<string>)
    requires h.Valid()
    modifies h
    ensures h.Valid()
    ensures r.Ok? <==> old(h.pos) + 8 <= |h.data|
    ensures r.Ok? ==> h.pos == old(h.pos) + 8 && r.value == Line(stamp, RecordValues(h.data[old(h.pos)..h.pos]))
    ensures r.Err? ==> h.pos == |h.data| && r.error == StructError
  {
    LayoutSize();
    var size := CalcSize(Layout);
    var raw := h.Read(size);
    var data := Unpack(Layout, raw);
    if data.Err? {
      r := Err(data.error);
    } else {
      UnpackRecord(raw);
      r := Ok(Line(stamp, data.value));
    }
  }

  /** How the inspector ends. */
  datatype Outcome =
    | DeviceMissing    // the existence assertion failed; nothing was printed
    | Exited           // the keyboard interrupt ended the loop
    | Raised(e: Error) // a short read made unpack raise, ending the program

  const Connecting: string := "Connecting..."
  const Connected: string := "done! Press Ctrl+C to exit.\n"
  const Farewell: string := "\nExitted.\n"

  /** The line printed for record k of the device: bytes 8k to 8k+8, stamped with clock(k). */
  function RecordLine(device: seq<Byte>, clock: nat -> string, k: nat): string
    requires 8 * k + 8 <= |device|
  {
    Line(clock(k), RecordValues(device[8 * k..8 * k + 8]))
  }

  /** Record k's line, for every k whose record the device holds whole. */
  function LineOf(device: seq<Byte>, clock: nat -> string): int -> string
  {
    k => if 0 <= k && 8 * k + 8 <= |device| then RecordLine(device, clock, k) else ""
  }

  /** The lines of the first n records of the device, record k read from bytes 8k to 8k+8. */
  function Lines(device: seq<Byte>, clock: nat -> string, n: nat): (ls: seq<string>)
    requires 8 * n <= |device|
  {
    seq(n, LineOf(device, clock))
  }

  /** What the inspector prints, in order (one element per completed line or prompt), and how it ends. */
  function StreamSpec(present: bool, device: seq<Byte>, clock: nat -> string, interruptAt: nat): (Outcome, seq<string>)
  {
    if !present then (DeviceMissing, [])
    else if interruptAt <= |device| / 8 then
      (Exited, [Connecting, Connected] + Lines(device, clock, interruptAt) + [Farewell])
    else
      (Raised(StructError), [Connecting, Connected] + Lines(device, clock, |device| / 8))
  }

  /** `stream(interface)`: the connect step and the read loop. */
  method Stream(present: bool, device: seq<Byte>, clock: nat -> string, interruptAt: nat)
    returns (outcome: Outcome, out: seq<string>)
    ensures (outcome, out) == StreamSpec(present, device, clock, interruptAt)
  {
    if !present {
      return DeviceMissing, [];
    }
    out := [Connecting];
    var h := new Handle(device);
    out := out + [Connected];
    var i := 0;
    while true
      invariant h.Valid() && h.data == device && h.pos == 8 * i
      invariant i <= interruptAt
      invariant out == [Connecting, Connected] + Lines(device, clock, i)
      decreases |device| - h.pos
    {
      if i == interruptAt {
        break;
      }
      var r := ReadRecord(h, clock(i));
      if r.Err? {
        assert i == |device| / 8;
        return Raised(r.error), out;
      }
      SeqSnoc(LineOf(device, clock), i);
      assert r.value == LineOf(device, clock)(i);
      out := out + [r.value];
      i := i + 1;
    }
    out := out + [Farewell];
    outcome := Exited;
  }

  // ---------------------------------------------------------------------------------------
  // Properties of the printed stream

  /** The inspector exits cleanly exactly when the interrupt comes before the data runs out;
      otherwise the short read raises struct.error; a missing device prints nothing. */
  lemma StreamOutcome(present: bool, device: seq<Byte>, clock: nat -> string, interruptAt: nat)
    ensures !present ==> StreamSpec(present, device, clock, interruptAt) == (DeviceMissing, [])
    ensures present ==> (StreamSpec(present, device, clock, interruptAt).0 == Exited <==> 8 * interruptAt <= |device|)
    ensures present ==> (StreamSpec(present, device, clock, interruptAt).0 == Raised(StructError) <==> |device| < 8 * interruptAt)
  {
    if present {
      var n := |device| / 8;
      assert 8 * n <= |device| < 8 * n + 8;
      if interruptAt <= n {
        assert 8 * interruptAt <= 8 * n;
      } else {
        assert 8 * interruptAt >= 8 * n + 8;
      }
    }
  }

  /** A comprehension one longer ends with one more element. */
  lemma SeqSnoc<T>(f: int -> T, n: nat)
    ensures seq(n + 1, f) == seq(n, f) + [f(n)]
  {
    var a, b := seq(n + 1, f), seq(n, f) + [f(n)];
    forall i | 0 <= i < n + 1
      ensures a[i] == b[i]
    {
      assert a[i] == f(i);
      if i < n {
        assert b[i] == seq(n, f)[i] == f(i);
      }
    }
  }

  /** How many record lines the inspector prints when the device is present: one per read
      before the interrupt, but no more than the device holds whole records. */
  function Count(device: seq<Byte>, interruptAt: nat): (n: nat)
    ensures 8 * n <= |device| && n <= interruptAt
    ensures n == interruptAt || 8 * n + 8 > |device|
  {
    if interruptAt <= |device| / 8 then interruptAt else |device| / 8
  }

  /** With the device present, the output is the two connect messages, the record lines, and
      the farewell exactly when the inspector was interrupted. */
  lemma StreamShape(device: seq<Byte>, clock: nat -> string, interruptAt: nat)
    ensures var out := StreamSpec(true, device, clock, interruptAt).1;
            var exited := StreamSpec(true, device, clock, interruptAt).0 == Exited;
            && |out| == 2 + Count(device, interruptAt) + (if exited then 1 else 0)
            && out[..2] == [Connecting, Connected]
            && (exited ==> out[|out| - 1] == Farewell)
  {
  }

  /** Between the connect messages and the farewell, the output is exactly the record lines:
      line k shows bytes 8k to 8k+8 of the device, the records read one after another without
      overlap, stamped with clock(k). */
  lemma StreamLines(device: seq<Byte>, clock: nat -> string, interruptAt: nat)
    ensures var n := Count(device, interruptAt);
            StreamSpec(true, device, clock, interruptAt).1[2..2 + n] == Lines(device, clock, n)
  {
    var n := Count(device, interruptAt);
    var ls := Lines(device, clock, n);
    var tail: seq<string> := if interruptAt <= |device| / 8 then [Farewell] else [];
    var out := StreamSpec(true, device, clock, interruptAt).1;
    SliceMiddle(out, [Connecting, Connected], ls, tail);
  }

  lemma SliceMiddle<T>(s: seq<T>, a: seq<T>, b: seq<T>, c: seq<T>)
    requires s == a + b + c
    ensures s[|a|..|a| + |b|] == b
  {
  }

  /** Every record line is the timestamp, two spaces, and six 8-character columns, column k
      showing the k-th field right-justified, then a newline. */
  lemma RecordLineShape(stamp: string, raw: seq<Byte>, k: nat)
    requires |raw| == 8 && k < 6
    ensures var line := Line(stamp, RecordValues(raw));
            && |line| == |stamp| + 2 + 48 + 1
            && line[..|stamp| + 2] == stamp + "  "
            && line[|stamp| + 2 + 8 * k..|stamp| + 2 + 8 * k + 8] == Column(RecordValues(raw)[k])
            && line[|line| - 1] == '\n'
  {
    var vals := RecordValues(raw);
    forall i | 0 <= i < 6 ensures |Decimal(vals[i])| <= 7 {
      DecimalWidth16(vals[i]);
    }
    LineShape(stamp, vals, k);
  }
}
