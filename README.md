# pyPS4Controller examples, modelled in Dafny

The pyPS4Controller repository ships three example scripts around its gamepad library.
This project models them and proves properties of the model.

- **Byte stream inspector** (`examples/byte_stream_inspector.py`). It checks that the
  joystick device exists and opens it. Then it reads one record after another until the
  user presses Ctrl+C. Each record is decoded with the `struct` format `"3Bh2b"` and
  printed as a timestamped line with one column per value: the value right-justified to width 7 (format field `7d`), then a space.
  - `packet_layout.dfy` (module `PacketLayout`) models the format string, native alignment,
    `calcsize` and `unpack`. It adds a reference encoder (`Pack`) as unpack's inverse.
  - `line_format.dfy` (module `LineFormat`) models the decimal columns and the printed line.
  - `inspector.dfy` (module `Inspector`) models the file handle (a class whose position
    advances on each read), `read` (a method) and `stream` (a method with a loop). The loop
    is proved against a closed-form description of everything the inspector prints.
- **Remapped buttons** (`examples/remapped_buttons.py`, module `RemappedButtons`). The keymap
  depends on whether the controller connects through ds4drv. Eight predicates classify
  button events against that keymap.
- **Mute controller** (`examples/mute_controller.py`, module `Mute`).
  - The Controller class is an object whose attribute table is overwritten in place: every
    `on_` entry becomes `do_nothing`.
  - The MuteController constructor runs that overwrite, then the base initialiser.
  - Lookup tries the subclass's own table first, then the base class.

Assumptions:
- Native byte order is taken to be little-endian.
- The record is 8 bytes. With a standard-size prefix (`=`, `<`, `>`), `struct` reads
  `"3Bh2b"` as 7 bytes, with no alignment. The script calls `struct.calcsize` and
  `struct.unpack` without a prefix. That selects native mode, which aligns the 16-bit field
  to an even offset behind one pad byte (PacketLayout.StandardLayoutSize states both sizes).

## Model

| member | source | states |
|---|---|---|
| PacketLayout.CodeOf | examples/byte_stream_inspector.py:49 | a format character is accepted exactly when it is 'B', 'b' or 'h' |
| PacketLayout.ParseFormat | examples/byte_stream_inspector.py:45-49 | a format made only of the characters B, b and h reads without error, with field i the kind of character i |
| PacketLayout.FormatLayout | examples/byte_stream_inspector.py:49 | PACKET_FORMAT "3Bh2b" reads as the fields B, B, B, h, b, b |
| PacketLayout.Align | examples/byte_stream_inspector.py:79 | native alignment moves a field forward by less than its size, and puts a 16-bit field on an even offset |
| PacketLayout.PlanFields | examples/byte_stream_inspector.py:79 | laying out a format inserts only pad bytes: the fields of the layout are the format's fields, in order |
| PacketLayout.PlanWidth | examples/byte_stream_inspector.py:79 | a laid-out format is at least its standard size and at most one pad byte per field wider |
| PacketLayout.PlanShape | examples/byte_stream_inspector.py:79 | a layout has between one and two slots per field, and ends with the last field: no trailing padding |
| PacketLayout.CalcSize | examples/byte_stream_inspector.py:79 | calcsize in native mode lies between the standard size and the standard size plus one byte per field |
| PacketLayout.LayoutPlan | examples/byte_stream_inspector.py:79 | the record is B, B, B, one pad byte, h, b, b |
| PacketLayout.LayoutSize | examples/byte_stream_inspector.py:79 | calcsize("3Bh2b") is 8 in native mode |
| PacketLayout.StandardLayoutSize | examples/byte_stream_inspector.py:79 | "3Bh2b" is 7 bytes at standard size, and native alignment adds exactly one byte to that |
| PacketLayout.Signed8 | examples/byte_stream_inspector.py:83 | a 'b' field is in [-128, 127] and congruent to its byte modulo 256 |
| PacketLayout.Signed16 | examples/byte_stream_inspector.py:83 | an 'h' field is in [-32768, 32767] and congruent to low byte + 256 * high byte modulo 65536 |
| PacketLayout.Field | examples/byte_stream_inspector.py:83 | every decoded field lies in its format character's range |
| PacketLayout.Unpack | examples/byte_stream_inspector.py:83 | unpack succeeds exactly when the buffer is calcsize bytes long, and raises struct.error otherwise |
| PacketLayout.Decode | examples/byte_stream_inspector.py:83 | decoding a layout yields exactly one value per field, pad bytes yielding none |
| PacketLayout.DecodeInRange | examples/byte_stream_inspector.py:83 | decoding yields one value per field of the layout, each in its field's range |
| PacketLayout.UnpackValues | examples/byte_stream_inspector.py:83 | a successful unpack yields one value per format field, each in range |
| PacketLayout.FieldBytes | examples/byte_stream_inspector.py:83 | the reference encoding of a field has the field's size |
| PacketLayout.Encode | examples/byte_stream_inspector.py:83 | the reference encoding of a layout is as wide as the layout |
| PacketLayout.Pack | examples/byte_stream_inspector.py:83 | the reference encoder succeeds exactly when every value is in range, and then yields calcsize bytes |
| PacketLayout.FieldRoundTrip | examples/byte_stream_inspector.py:83 | a field decodes back to the value that was encoded into it |
| PacketLayout.FieldBytesOf | examples/byte_stream_inspector.py:83 | re-encoding a decoded field gives back its bytes |
| PacketLayout.DecodeEncode | examples/byte_stream_inspector.py:83 | decoding an encoded record gives back the values |
| PacketLayout.EncodeDecode | examples/byte_stream_inspector.py:83 | re-encoding a decoded record gives back its bytes when the pad bytes are zero |
| PacketLayout.UnpackPack | examples/byte_stream_inspector.py:83 | unpack inverts the reference encoder |
| PacketLayout.PackUnpack | examples/byte_stream_inspector.py:83 | the reference encoder inverts unpack on buffers with zero pad bytes |
| PacketLayout.RecordValues | examples/byte_stream_inspector.py:83 | a record has six values: three in [0, 255], one in [-32768, 32767], two in [-128, 127] |
| PacketLayout.UnpackRecord | examples/byte_stream_inspector.py:80-83 | an 8-byte record decodes positionally: bytes 0-2 unsigned, byte 3 skipped, bytes 4-5 a little-endian signed short, bytes 6 and 7 signed |
| PacketLayout.UnpackShortRecord | examples/byte_stream_inspector.py:80-83 | a read shorter (or longer) than 8 bytes makes unpack raise struct.error |
| PacketLayout.UnpackExample | examples/byte_stream_inspector.py:81-83 | bytes 1, 2, 3, p, 0x10, 0x00, 4, 5 decode to (1, 2, 3, 16, 4, 5) for every pad byte p |
| LineFormat.NatDigits | examples/byte_stream_inspector.py:86-87 | a number renders as at least one decimal digit, with no leading zero |
| LineFormat.NatDigitsRoundTrip | examples/byte_stream_inspector.py:86-87 | parsing the digits of a number gives back the number |
| LineFormat.DecimalRoundTrip | examples/byte_stream_inspector.py:86-87 | parsing the 'd' rendering of any integer, sign included, gives back the integer |
| LineFormat.NatDigitsLength | examples/byte_stream_inspector.py:86-87 | a number below 10^k renders in at most k digits |
| LineFormat.DecimalWidth16 | examples/byte_stream_inspector.py:86-87 | every 16-bit value renders in at most six characters, so it fits a width-7 column |
| LineFormat.DecimalShape | examples/byte_stream_inspector.py:86-87 | the 'd' rendering is non-empty, starts with '-' exactly for negative values, is otherwise all digits, and holds no newline |
| LineFormat.StripLeft | examples/byte_stream_inspector.py:86 | stripping leading spaces leaves a suffix that does not start with a space |
| LineFormat.ColumnShape | examples/byte_stream_inspector.py:86 | a column is the value right-justified to width 7 (never truncated), then one space: its length, its leading spaces, its text and its lack of newlines |
| LineFormat.ColumnRoundTrip | examples/byte_stream_inspector.py:86 | reading a column back gives the value it shows |
| LineFormat.RowLength | examples/byte_stream_inspector.py:86-87 | with values of at most seven characters, the row has 8 characters per value |
| LineFormat.RowColumns | examples/byte_stream_inspector.py:86-87 | the k-th 8-character slice of the row is the k-th value's column |
| LineFormat.RowNoNewline | examples/byte_stream_inspector.py:86-87 | the row of columns holds no newline |
| LineFormat.LineShape | examples/byte_stream_inspector.py:85-87 | a line is the timestamp, two spaces, 8 characters per value with slice k the k-th value's column, and a final newline |
| LineFormat.LineBreaks | examples/byte_stream_inspector.py:85-87 | with a timestamp free of newlines, the two print calls of a record end exactly one console line: the newline is the line's last character and its only one |
| Inspector.Handle.constructor | examples/byte_stream_inspector.py:63 | opening the device starts reading at its first byte |
| Inspector.Handle.Read | examples/byte_stream_inspector.py:80 | a read returns the next n bytes, or all that remain, and advances the position past them |
| Inspector.ReadRecord | examples/byte_stream_inspector.py:75-87 | read asks for 8 bytes; with 8 available it returns the timestamped line of their values, otherwise struct.error with nothing printed |
| Inspector.Stream | examples/byte_stream_inspector.py:56-72 | a missing device ends the run with nothing printed; otherwise the run prints the connect messages and then one line per whole record read before the interrupt. It ends with "Exitted." when interrupted, or with struct.error when the data runs out first |
| Inspector.Count | examples/byte_stream_inspector.py:66-70 | the number of printed records is the number of reads before the interrupt, capped at the device's whole records |
| Inspector.StreamOutcome | examples/byte_stream_inspector.py:61-72 | a missing device prints nothing; otherwise the inspector exits cleanly exactly when the interrupt comes before the data runs out, and raises struct.error exactly when it does not |
| Inspector.StreamShape | examples/byte_stream_inspector.py:62-72 | the output is the two connect messages, one line per record read, and "Exitted." exactly when interrupted |
| Inspector.StreamLines | examples/byte_stream_inspector.py:66-70 | the lines between the connect messages and the farewell are, in order, the lines of bytes 8k to 8k+8 of the device |
| Inspector.RecordLineShape | examples/byte_stream_inspector.py:85-87 | a record line is the timestamp, two spaces, six 8-character columns (column k showing field k) and a newline |
| RemappedButtons.Keymap | examples/remapped_buttons.py:24-29 | the keymap is defined for exactly the four face buttons |
| RemappedButtons.XPressed | examples/remapped_buttons.py:31-32 | x is pressed by a type-1 event with value 1 and id 0 (1 under ds4drv) |
| RemappedButtons.XReleased | examples/remapped_buttons.py:34-35 | x is released by a type-1 event with value 0 and id 0 (1 under ds4drv) |
| RemappedButtons.TrianglePressed | examples/remapped_buttons.py:37-38 | triangle is pressed by a type-1 event with value 1 and id 2 (3 under ds4drv) |
| RemappedButtons.TriangleReleased | examples/remapped_buttons.py:40-41 | triangle is released by a type-1 event with value 0 and id 2 (3 under ds4drv) |
| RemappedButtons.SquarePressed | examples/remapped_buttons.py:43-44 | square is pressed by a type-1 event with value 1 and id 3 (0 under ds4drv) |
| RemappedButtons.SquareReleased | examples/remapped_buttons.py:46-47 | square is released by a type-1 event with value 0 and id 3 (0 under ds4drv) |
| RemappedButtons.CirclePressed | examples/remapped_buttons.py:49-50 | circle is pressed by a type-1 event with value 1 and id 1 (2 under ds4drv) |
| RemappedButtons.CircleReleased | examples/remapped_buttons.py:52-53 | circle is released by a type-1 event with value 0 and id 1 (2 under ds4drv) |
| RemappedButtons.ButtonFor | examples/remapped_buttons.py:24-29 | every id in 0..3 is assigned to some button by the keymap |
| RemappedButtons.KeymapBijection | examples/remapped_buttons.py:24-29 | in both modes the keymap is a bijection from the four buttons onto {0, 1, 2, 3} |
| RemappedButtons.KeymapRotation | examples/remapped_buttons.py:24-29 | the ds4drv keymap is the default keymap with each id shifted by one modulo 4 |
| RemappedButtons.PressReleaseExclusive | examples/remapped_buttons.py:31-53 | no event is both a press and a release of the same button |
| RemappedButtons.OneNamedButton | examples/remapped_buttons.py:31-53 | of XPressed, CirclePressed, TrianglePressed and SquarePressed at most one holds for an event, and likewise of the four release predicates |
| RemappedButtons.AtMostOneButton | examples/remapped_buttons.py:24-53 | an event presses at most one button and releases at most one button |
| RemappedButtons.NonButtonEvent | examples/remapped_buttons.py:31-53 | an event of another type, or with a value other than 0 and 1, satisfies none of the eight predicates |
| RemappedButtons.ButtonEventClassified | examples/remapped_buttons.py:24-53 | a button event with value 0 or 1 and an id in 0..3 is a press or release of exactly the button the keymap assigns to that id |
| Mute.Invoke | examples/mute_controller.py:26-31 | do_nothing has no effect, with or without a value; the subclass handlers print their text when called without a value |
| Mute.Muted | examples/mute_controller.py:43-45 | the overwrite neither adds nor removes attribute names |
| Mute.MuteHandlers | examples/mute_controller.py:43-45 | the loop over the class's attribute names leaves the class table equal to its muted form |
| Mute.Resolve | examples/mute_controller.py:51-55 | a name resolves when either table holds it; the subclass's own entry wins, and otherwise the base class's entry is the result |
| Mute.MuteController.constructor | examples/mute_controller.py:39-48 | construction mutes the shared base class, and the base initialiser runs after the overwrite and sees the muted table |
| Mute.MuteController.Lookup | examples/mute_controller.py:51-55 | an instance finds the subclass's own handlers first, and otherwise exactly the base class's entry |
| Mute.MutedEntries | examples/mute_controller.py:43-45 | after the overwrite every "on_" attribute is do_nothing and every other attribute is unchanged |
| Mute.MutedIdempotent | examples/mute_controller.py:43-45 | overwriting again changes nothing, so a second MuteController leaves the base class as the first did |
| Mute.ResolveMuted | examples/mute_controller.py:43-55 | lookup on a MuteController: own attributes, else do_nothing for "on_" names of the base, else the original entry |
| Mute.OverridesWin | examples/mute_controller.py:51-55 | on_x_press and on_circle_press still resolve to the subclass's handlers, whatever the base held, and the resolved handlers print "X pressed" and "O pressed" |
| Mute.OtherHandlersSilent | examples/mute_controller.py:43-45 | every other "on_" handler found through a MuteController prints nothing |
| Mute.PlainControllerMuted | examples/mute_controller.py:45 | a plain Controller created afterwards also finds do_nothing for every "on_" handler |

## Left out

- Device I/O is a parameter. `os.path.exists` becomes a boolean. The device is a finite byte sequence, read as a file is: a read at the end returns fewer bytes. The failure modes of `open` are not modelled.
- The timestamp `datetime.datetime.now()` is a parameter `clock` that gives the timestamp text of record k. Wall-clock time is not modelled.
- The keyboard interrupt is a parameter `interruptAt`. It arrives while the inspector is blocked in that read (counting from 0), before the read consumes anything. There are no signals and no concurrency.
- Inspector.Stream: the record's two print calls are one output element, the timestamp followed by the row. The prompt and the farewell are elements of their own. The console text is the concatenation of the elements.
- PacketLayout.ParseFormat: only the characters B, b and h with a one-digit repeat count are read. Multi-digit counts, byte-order prefixes and the other format characters of `struct` are not modelled. A zero repeat count is read as no field, although native mode still aligns for it (`calcsize("B0h")` is 2); the script's format has no zero count.
- PacketLayout.Pack and PacketLayout.Encode: the script never packs. They are a reference encoder that serves as the inverse of unpack, with pad bytes written as zero.
- The gamepad library's `Controller` and `Event` classes (`listen`, event parsing, how `connecting_using_ds4drv` is set) are not part of this model. An event is the record of the fields the predicates read. The base class is its attribute table.
- Mute.Invoke: the base class's own handlers (`Original` entries) are outside this model, so calling one has an external effect that is not described.
- Python reflection: `dir` lists names in sorted order, and the model takes them in any order; the result is the same. The full method resolution order is reduced to the subclass table followed by the base table.
- Mute.MuteController.constructor: the keyword arguments MuteController passes on to `Controller.__init__` are not modelled, since the base initialiser is outside this model; only the order of the overwrite and the initialiser is.
- The `if __name__ == "__main__"` blocks and `test.py` only build objects and call the library's `listen`; there is no logic in them to model.
