# mod-host atom writer, modelled in Dafny

`src/atom-writer.c` turns LV2 atoms into the ad-hoc JSON lines that mod-host
sends to its user interface, e.g. `atom 3 gain {"gain":10}` followed by a newline. It
writes into a fixed-size character buffer through one bounded `sink`. The sink
appends all-or-nothing, always leaves a NUL after the text, and has a sticky
overflow flag. On top of it sit:
- a string escaper, which puts a backslash before `"` and `\` and nothing else;
- a recursive encoder, which dispatches on the atom's type tag in a fixed
  priority order;
- the record writer, which prints a header, wraps the atom in a one-key object
  named by the port symbol, and returns -1 on overflow.

The project has five modules:

- **Text** (`text.dfy`): the pure text functions.
  - C strings (`CStr`), `strcspn` (`Cspn`), the escaper's specification
    (`Escape`, `Quoted`, `Opening`) and a JSON string reader (`ReadString`) that
    undoes it.
  - Signed decimals (`Decimal`) with a reader (`ParseDecimal`).
  - The 255-byte record header (`Header`), and comma joining and concatenation.
- **Bounded** (`bounded.dfy`): the sink as a value.
  - `SinkState` is the whole buffer, the length and the overflow flag.
    `Append` is one `sink` call, and `SinkAll` is any sequence of them.
  - `Writes(a, t, b)` says that `b` is what some sequence of `sink` calls
    whose bytes make up `t` leaves behind from `a`.
  - The main result, `WritesOutcome`, describes every state that writing `t`
    can reach. Two things do not depend on how `t` was cut into calls: the
    buffer overflows exactly when the text, `t` and the terminator do not fit,
    and without overflow `t` is appended. With overflow, the text left behind
    does depend on the cut. It is known only to be a prefix of old text + `t`:
    with room for 3 bytes, writing `ab` then `cd` leaves `ab`, while `abcd` in
    one call leaves nothing. Bytes past the terminator are never touched.
- **Atoms** (`atoms.dfy`): atoms as a datatype and `Render`, the text
  `serialize_atom` writes for them.
  - `Classify` is the source's comparison chain, in its order.
  - `WellFormed` says the body has the shape its branch reads, recursively.
  - Each branch has a lemma stating what it writes: `RenderNull` (the empty
    atom and the fallback), `RenderText` (String, URI and URID), `RenderInt`,
    `RenderLong`, `RenderFloat`, `RenderDouble`, `RenderBool`, `VectorShape`,
    `ObjectShape` and `RenderPath`.
- **Writer** (`writer.dfy`): the class `AtomWriter` over a `char` array with
  `len`, `overflow`, the forge and the unmapping service.
  - Each function of the C file is a method. Each method that writes is proved
    to append, in the sense of `Writes`, exactly the text the pure functions
    give. `Init` and the constructor are proved to leave an empty text and a
    cleared overflow flag.
  - `Sink` is proved to be `Append` on the whole buffer.
- **Examples** (`examples.dfy`): concrete renderings worked through the
  definitions.

A C `char` is a Dafny `char`, and NUL is `'\0'`. The type tags and the
object-type and blank-object tests of the forge are fields of a `Forge`
record. `unmap` and the `"%f"` renderings are functions in an `Env` record.

The encoder's three loops are modelled as loops:
- the escaper's `do`/`while` over `strcspn` runs;
- the vector loop, whose cursor advances by `child_size` from the 8-byte
  vector header to `size`;
- the object property loop.

Each vector child and each object property is written by a helper method,
`SerializeElement` and `SerializeMember`, which is the loop's body.

## Model

| member | source | states |
|---|---|---|
| Bounded.Append | src/atom-writer.c:87-99 | one `sink` call as a value: the state stays valid and the buffer keeps its capacity; `AppendSpec` states what it writes |
| Bounded.AppendSpec | src/atom-writer.c:87-99 | one `sink`: overflow is sticky and set exactly when non-empty input would not leave room for the NUL, and then nothing is written; otherwise the bytes are appended after the text; bytes past the new terminator are unchanged |
| Writer.AtomWriter.Sink | src/atom-writer.c:87-99 | the in-place copy, length update and NUL store leave the buffer, length and flag equal to `Append` of the old state, with `len < capacity` and `buf[len] == NUL` kept |
| Writer.AtomWriter.SinkString | src/atom-writer.c:101-104 | appends the C string's bytes, as one `sink` |
| Bounded.WritesTrans | src/atom-writer.c:87-99 | two runs of `sink` calls writing `t1` then `t2` write `t1 + t2` |
| Bounded.SinkAllOutcome | src/atom-writer.c:87-99 | any sequence of `sink` calls whose bytes make `t` ends in an outcome of `t` (overflow iff `t` does not fit, all of `t` otherwise, prefix on overflow, old state kept once overflowed) |
| Bounded.WritesOutcome | src/atom-writer.c:87-99 | the same for every state reachable by writing `t`, however it was cut into calls |
| Bounded.WritesFromEmpty | src/atom-writer.c:87-99 | from an empty buffer: overflow iff `|t| >= capacity`; the text is `t` without overflow, a prefix of `t` with it |
| Text.Cspn | src/atom-writer.c:115 | `strcspn(s, "\"\\")`: no quote or backslash before the result, and one at it unless it is the end |
| Text.CStr | src/atom-writer.c:164 | a C-string read of a body: a prefix of it, stopped by a NUL unless it is the whole body |
| Writer.AtomWriter.SinkEscape | src/atom-writer.c:109-125 | the `strcspn` loop writes exactly `"` + `Escape(str)` + `"` |
| Text.EscapeRun | src/atom-writer.c:115-119 | a run free of quotes and backslashes is copied verbatim, extending the escaped prefix |
| Text.EscapeSpecial | src/atom-writer.c:120-122 | a quote or backslash is written with a backslash before it, extending the escaped prefix |
| Text.Escape | src/atom-writer.c:106-125 | the escaped text is never shorter than the input; `EscapeAppend`, `EscapeVerbatim` and `ReadQuoted` state what it is |
| Text.EscapeVerbatim | src/atom-writer.c:106-108 | escaping leaves a string unchanged iff it holds no quote and no backslash (control characters included) |
| Text.EscapeAppend | src/atom-writer.c:109-125 | escaping works byte by byte: it distributes over concatenation |
| Text.ReadQuoted | src/atom-writer.c:106-125 | a JSON string reader given the escaped literal returns the original bytes and leaves what follows untouched |
| Writer.AtomWriter.SinkBeginObject | src/atom-writer.c:127-132 | writes `{`, the quoted name and `:` |
| Writer.AtomWriter.SinkEndObject | src/atom-writer.c:134-137 | writes `}` |
| Writer.AtomWriter.SerializeAtom | src/atom-writer.c:159-244 | writes exactly `Render` of the atom, for every branch of the dispatch |
| Atoms.Classify | src/atom-writer.c:161-243 | the comparison chain: tag 0 with size 0 is the empty atom before any other test; the fallback is taken exactly when no test matches |
| Atoms.ClassifySelects | src/atom-writer.c:161-228 | each branch is taken only when its own test holds: `null` first only for tag 0 with size 0, every other branch only for its type tag |
| Atoms.WellFormed | src/atom-writer.c:159-244 | the inputs the encoder reads as intended: any body for the empty atom and the fallback; a text body holds a NUL, so its C string is a proper prefix |
| Atoms.Render | src/atom-writer.c:159-244 | the text `serialize_atom` writes: a quoted literal for String, URI and URID, `[`…`]` for a vector, `{`…`}` for an object or a path |
| Atoms.RenderNull | src/atom-writer.c:161-162 | `null` for tag 0 with size 0, whatever the forge's tags, and for every unrecognised tag |
| Atoms.RenderText | src/atom-writer.c:163-169 | String and URI write the body up to its NUL, URID the unmapped URI, as a string literal that reads back to that text |
| Atoms.RenderInt | src/atom-writer.c:170-173 | an Int writes a signed decimal of at most 11 bytes that reads back as the body taken as `int32_t` |
| Atoms.RenderLong | src/atom-writer.c:174-177 | a Long writes a signed decimal of at most 20 bytes that reads back as the body taken as `int64_t` |
| Atoms.Clipped | src/atom-writer.c:178-185 | the `"%f"` text kept by the 64-byte print buffer: a prefix, 63 bytes long when the full text is longer |
| Atoms.RenderFloat | src/atom-writer.c:178-181 | a Float writes its `"%f"` text cut to 63 bytes |
| Atoms.RenderDouble | src/atom-writer.c:182-185 | a Double writes its `"%f"` text cut to 63 bytes |
| Atoms.RenderBool | src/atom-writer.c:186-188 | `false` iff the 32-bit body is zero, `true` iff it is not |
| Atoms.Int32Of | src/atom-writer.c:172 | the `int32_t` read of a 4-byte word: in range and congruent to the word modulo 2^32 |
| Atoms.Int64Of | src/atom-writer.c:176 | the `int64_t` read of an 8-byte word: in range and congruent to the word modulo 2^64 |
| Writer.AtomWriter.SerializeVector | src/atom-writer.c:189-202 | writes `[`, the children's renderings joined by commas, `]` |
| Writer.AtomWriter.SerializeElement | src/atom-writer.c:195-200 | one turn of the vector loop: a comma unless first, then the child with the vector's child type and size |
| Atoms.VectorShape | src/atom-writer.c:189-202 | a well-formed vector has as many children as the loop visits, and renders as `[` + the joined child renderings + `]` |
| Atoms.VectorChild | src/atom-writer.c:200 | each child is rendered with the vector's `child_type` and `child_size` |
| Atoms.Strides | src/atom-writer.c:193 | the number of turns of the vector loop: none exactly when the cursor starts at or past `size` |
| Atoms.StridesCount | src/atom-writer.c:193 | the loop runs the least number of `child_size` strides that carries the cursor from the header to `size` |
| Atoms.RenderEmptyVector | src/atom-writer.c:189-202 | a vector with no room past its header writes `[]` |
| Writer.AtomWriter.SerializeObject | src/atom-writer.c:203-227 | writes `{"<type>":{`, the `"#type"` entry, `,"<key>":<value>` per property in stored order, `}}` |
| Atoms.TypeEntry | src/atom-writer.c:210-215 | starts with `"#type":`; then `null` for a blank object, else a literal that a JSON reader decodes to the unmapped id with nothing left over |
| Writer.AtomWriter.SerializeTypeEntry | src/atom-writer.c:209-214 | `"#type":null` for a blank object, else `"#type":` and the quoted unmapped id |
| Writer.AtomWriter.SerializeMember | src/atom-writer.c:218-222 | one property: `,`, the quoted unmapped key, `:`, the value's rendering |
| Atoms.ObjectShape | src/atom-writer.c:203-227 | an object renders as its opening, the type entry, the concatenated members and `}}` |
| Atoms.ObjectMember | src/atom-writer.c:216-223 | each member is `,` + the quoted unmapped key + `:` + the property value's rendering |
| Atoms.RenderPath | src/atom-writer.c:228-232 | a Path writes `{"#path":`, the quoted path up to its NUL and `}`; the literal reads back to the path |
| Writer.AtomWriter.SerializePath | src/atom-writer.c:228-232 | writes `{"#path":`, the quoted path and `}` |
| Text.Header | src/atom-writer.c:266-268 | the header is `atom <instance> <symbol> ` as the 256-byte buffer keeps it: a prefix of it, all of it when it fits, exactly 255 bytes when it does not |
| Text.DecimalRoundTrip | src/atom-writer.c:172 | the signed decimal rendering reads back to the number |
| Text.DigitsRoundTrip | src/atom-writer.c:172 | the digits of a magnitude read back to it |
| Text.DecimalLength | src/atom-writer.c:171-176 | a number of magnitude below 10^k prints in at most k digits and a sign |
| Atoms.Int32Width | src/atom-writer.c:171-172 | an `int32_t` prints in at most 11 bytes, so the 64-byte buffer never cuts it |
| Atoms.Int64Width | src/atom-writer.c:175-176 | an `int64_t` prints in at most 20 bytes, so the 64-byte buffer never cuts it |
| Text.DigitsLength | src/atom-writer.c:171-172 | a number below 10^k has at most k digits |
| Text.Digits | src/atom-writer.c:172 | at least one digit, all decimal digits, a leading zero only for zero itself |
| Text.Decimal | src/atom-writer.c:172 | a minus sign exactly for negative numbers, digits after it |
| Atoms.Record | src/atom-writer.c:264-278 | the line starts with the header and `{"<symbol>":`, and ends with `}` and a newline |
| Writer.AtomWriter.Format | src/atom-writer.c:264-278 | writes the header, `{"<symbol>":`, the rendering, `}` and a newline; returns -1 iff overflowed, else 0; from an empty buffer, 0 iff the record fits, and then the buffer holds exactly the record |
| Writer.AtomWriter.Init | src/atom-writer.c:253-262 | binds forge and unmapping service, empties the text, clears the overflow flag, leaves the rest of the buffer alone |
| Writer.AtomWriter.constructor | src/atom-writer.c:253-262 | a fresh writer of the given capacity, initialised the same way |
| Examples.VectorExample | src/atom-writer.c:189-202 | the Int vector 1, 2, 3 renders as `[1,2,3]` |
| Examples.ObjectExample | src/atom-writer.c:203-227 | a blank object of type Foo with property bar = 7 renders as `{"Foo":{"#type":null,"bar":7}}` |
| Examples.RecordExample | src/atom-writer.c:264-278 | instance 3, symbol `gain`, Int 10 gives the line `atom 3 gain {"gain":10}` and a newline |

## Left out

- `src/atom-writer.h` is not part of this model. The buffer's capacity is the length of the writer's array, and it is any positive number.
- Byte layout and pointer casts are not modelled. Atoms are a datatype. A body is kept in the shape its branch reads: NUL-terminated text, a 4- or 8-byte word, a vector with child size, child type and child bodies, or an object with type, id and properties. `LV2_ATOM_OBJECT_BODY_FOREACH` and its padding are foreign header macros.
- Float and Double: the `"%f"` rendering is an opaque function of the body's bits. Only the cut to 63 bytes by the 64-byte print buffer is modelled.
- `unmap` is a total function that never returns NULL, so the `assert(str)` in `sink_escape` always holds. `lv2_atom_forge_is_object_type` and `lv2_atom_forge_is_blank` are given predicates of the forge.
- `lv2_atom_forge_set_buffer` in `atom_writer_init` and the forge's scratch buffer are left out. Nothing in the encoder uses them.
- Writer.AtomWriter.SerializeVector: a vector whose `child_size` is 0 and whose size is past the header makes the source loop forever. `WellFormed` excludes such input, so the model does not capture the endless loop.
- Writer.AtomWriter.SerializeAtom: the body is required to be `WellFormed`, that is, to hold the shape the branch reads. The source reads whatever memory is there.
- The escaper passes control characters through verbatim, as the source does (its TODO at line 107). The output is then not valid JSON, and the model keeps this behaviour rather than correcting it.
- Bytes are `char`. No character encoding is modelled.
- `atom_writer_format` does not reset the buffer. The model keeps this: `Format` appends to whatever is there. Its extra guarantee about fitting is stated for a writer that starts empty.
