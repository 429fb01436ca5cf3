/**
 * LV2 atoms as values, and the text `serialize_atom` writes for them.
 *
 * An atom is a type tag, a byte size and a body. The body is kept in the
 * shape the encoder reads it in; which shape is read is decided by the type
 * tag, through the same priority-ordered comparison chain the encoder uses
 * (`Classify`). The forge's tag constants, its object-type and blank-object
 * tests and the URID unmapping service are parameters of the model.
 */
module Atoms {
  import opened Text

  newtype uint32 = x: int | 0 <= x < 0x1_0000_0000
  newtype uint64 = x: int | 0 <= x < 0x1_0000_0000_0000_0000
  newtype int32 = x: int | -0x8000_0000 <= x < 0x8000_0000

  /** A 4-byte word read as `int32_t` (two's complement). */
  function Int32Of(w: uint32): (v: int)
    ensures -0x8000_0000 <= v < 0x8000_0000
    ensures v % 0x1_0000_0000 == w as int
  {
    if w < 0x8000_0000 then w as int else w as int - 0x1_0000_0000
  }

  /** An 8-byte word read as `int64_t` (two's complement). */
  function Int64Of(w: uint64): (v: int)
    ensures -0x8000_0000_0000_0000 <= v < 0x8000_0000_0000_0000
    ensures v % 0x1_0000_0000_0000_0000 == w as int
  {
    if w < 0x8000_0000_0000_0000 then w as int else w as int - 0x1_0000_0000_0000_0000
  }

  /**
   * The forge: the URIDs of the atom types the encoder recognises, and its
   * two classification tests (`lv2_atom_forge_is_object_type` on a type,
   * `lv2_atom_forge_is_blank` on a type and an object's id).
   */
  datatype Forge = Forge(
    String: uint32, URID: uint32, URI: uint32, Int: uint32, Long: uint32,
    Float: uint32, Double: uint32, Bool: uint32, Vector: uint32, Path: uint32,
    isObjectType: uint32 -> bool,
    isBlank: (uint32, uint32) -> bool)

  /**
   * What the encoder calls out to: the URID unmapping service (a C string for
   * every URID) and the full "%f" rendering of a float and of a double, left
   * opaque.
   */
  datatype Env = Env(
    unmap: uint32 -> CString,
    showFloat: uint32 -> CString,
    showDouble: uint64 -> CString)

  /** An atom body, in the shape the encoder reads it. */
  datatype Body =
    | Opaque                                         // never read (null literal, unsupported types)
    | Chars(bytes: string)                           // String, URI, Path: NUL-terminated text
    | Word(bits: uint32)                             // URID, Int, Float, Bool
    | DWord(wide: uint64)                            // Long, Double
    | Vec(childSize: uint32, childType: uint32, children: seq<Body>)
    | Obj(otype: uint32, id: uint32, props: seq<Property>)

  /** An object property: a key URID and a complete atom as its value. */
  datatype Property = Property(key: uint32, value: Atom)

  datatype Atom = Atom(typ: uint32, size: uint32, body: Body)

  /** Room for text in the `char buf[64]` that numbers are printed into. */
  const NumberRoom: nat := 63

  /** What `snprintf` keeps of `s` in that buffer: its first 63 bytes at most. */
  function Clipped(s: CString): (r: CString)
    ensures r <= s
    ensures |r| == if |s| <= NumberRoom then |s| else NumberRoom
  {
    if |s| <= NumberRoom then s else s[..NumberRoom]
  }

  /** Which branch of `serialize_atom` an atom takes. */
  datatype Kind =
    | NullLiteral | StringValue | UridValue | UriValue | IntValue | LongValue
    | FloatValue | DoubleValue | BoolValue | VectorValue | ObjectValue | PathValue
    | Unsupported

  /** The encoder's comparison chain, in its priority order. */
  function Classify(f: Forge, typ: uint32, size: uint32): (r: Kind)
    ensures typ == 0 && size == 0 ==> r == NullLiteral
    ensures r == Unsupported <==>
      !(typ == 0 && size == 0) &&
      typ != f.String && typ != f.URID && typ != f.URI && typ != f.Int && typ != f.Long &&
      typ != f.Float && typ != f.Double && typ != f.Bool && typ != f.Vector &&
      !f.isObjectType(typ) && typ != f.Path
  {
    if typ == 0 && size == 0 then NullLiteral
    else if typ == f.String then StringValue
    else if typ == f.URID then UridValue
    else if typ == f.URI then UriValue
    else if typ == f.Int then IntValue
    else if typ == f.Long then LongValue
    else if typ == f.Float then FloatValue
    else if typ == f.Double then DoubleValue
    else if typ == f.Bool then BoolValue
    else if typ == f.Vector then VectorValue
    else if f.isObjectType(typ) then ObjectValue
    else if typ == f.Path then PathValue
    else Unsupported
  }

  /** Each branch is taken only when its own test holds. */
  lemma ClassifySelects(f: Forge, typ: uint32, size: uint32)
    ensures Classify(f, typ, size) == NullLiteral ==> typ == 0 && size == 0
    ensures Classify(f, typ, size) == StringValue ==> typ == f.String
    ensures Classify(f, typ, size) == UridValue ==> typ == f.URID
    ensures Classify(f, typ, size) == UriValue ==> typ == f.URI
    ensures Classify(f, typ, size) == IntValue ==> typ == f.Int
    ensures Classify(f, typ, size) == LongValue ==> typ == f.Long
    ensures Classify(f, typ, size) == FloatValue ==> typ == f.Float
    ensures Classify(f, typ, size) == DoubleValue ==> typ == f.Double
    ensures Classify(f, typ, size) == BoolValue ==> typ == f.Bool
    ensures Classify(f, typ, size) == VectorValue ==> typ == f.Vector
    ensures Classify(f, typ, size) == ObjectValue ==> f.isObjectType(typ)
    ensures Classify(f, typ, size) == PathValue ==> typ == f.Path
  {
  }

  /** `sizeof(LV2_Atom_Vector_Body)`: the child size and child type that open a vector body. */
  const VectorHeader: nat := 8

  /**
   * How many times the vector loop runs: a cursor that starts `from` bytes
   * into the body and advances by `stride` while it is below `size`.
   */
  function Strides(from: nat, size: nat, stride: nat): (r: nat)
    requires stride > 0 || from >= size
    ensures r == 0 <==> from >= size
    decreases if from < size then size - from else 0
  {
    if from < size then 1 + Strides(from + stride, size, stride) else 0
  }

  /**
   * The loop count is the least number of strides that carries the cursor
   * from `from` to `size` or beyond.
   */
  lemma {:induction false} StridesCount(from: nat, size: nat, stride: nat)
    requires stride > 0 || from >= size
    ensures from + Strides(from, size, stride) * stride >= size
    ensures Strides(from, size, stride) > 0 ==> from + (Strides(from, size, stride) - 1) * stride < size
    decreases if from < size then size - from else 0
  {
    if from < size {
      var m := Strides(from + stride, size, stride);
      StridesCount(from + stride, size, stride);
      assert (1 + m) * stride == stride + m * stride;
      if m > 0 {
        assert (m - 1) * stride + stride == m * stride;
      }
    }
  }

  /**
   * The body has the shape its branch reads: text that holds its NUL, a word
   * of the right width, a vector with as many children as the loop visits
   * (and a non-zero stride if it visits any), an object; and so on down.
   */
  ghost predicate WellFormed(f: Forge, typ: uint32, size: uint32, body: Body)
    ensures Classify(f, typ, size) in {NullLiteral, Unsupported} ==> WellFormed(f, typ, size, body)
    ensures WellFormed(f, typ, size, body) && Classify(f, typ, size) in {StringValue, UriValue, PathValue} ==>
      body.Chars? && CStr(body.bytes) < body.bytes
    decreases body
  {
    match Classify(f, typ, size)
    case StringValue | UriValue | PathValue => body.Chars? && '\0' in body.bytes
    case UridValue | IntValue | FloatValue | BoolValue => body.Word?
    case LongValue | DoubleValue => body.DWord?
    case VectorValue =>
      body.Vec? &&
      (size as nat > VectorHeader ==> body.childSize > 0) &&
      |body.children| == Strides(VectorHeader, size as nat, body.childSize as nat) &&
      forall k :: 0 <= k < |body.children| ==>
        WellFormed(f, body.childType, body.childSize, body.children[k])
    case ObjectValue =>
      body.Obj? &&
      forall k :: 0 <= k < |body.props| ==>
        var v := body.props[k].value;
        WellFormed(f, v.typ, v.size, v.body)
    case NullLiteral | Unsupported => true
  }

  /** The `"#type"` entry of an object: null for a blank object, else its id's name. */
  function TypeEntry(f: Forge, e: Env, typ: uint32, id: uint32): (r: string)
    ensures |r| > 8 && r[..8] == "\"#type\":"
    ensures f.isBlank(typ, id) ==> r[8..] == "null"
    ensures !f.isBlank(typ, id) ==> r[8] == '"' && ReadString(r[9..]) == Some((e.unmap(id), ""))
  {
    if f.isBlank(typ, id) then "\"#type\":null"
    else
      var name := e.unmap(id);
      ReadQuoted(name, "");
      assert Quoted(name)[1..] + "" == Quoted(name)[1..];
      "\"#type\":" + Quoted(name)
  }

  /** The JSON text `serialize_atom` writes for an atom. */
  function Render(f: Forge, e: Env, typ: uint32, size: uint32, body: Body): (r: string)
    requires WellFormed(f, typ, size, body)
    ensures Classify(f, typ, size) in {StringValue, UridValue, UriValue} ==>
      |r| >= 2 && r[0] == '"' && r[|r| - 1] == '"'
    ensures Classify(f, typ, size) == VectorValue ==> |r| >= 2 && r[0] == '[' && r[|r| - 1] == ']'
    ensures Classify(f, typ, size) in {ObjectValue, PathValue} ==> |r| >= 2 && r[0] == '{' && r[|r| - 1] == '}'
    decreases body, 1
  {
    match Classify(f, typ, size)
    case NullLiteral => "null"
    case StringValue => Quoted(CStr(body.bytes))
    case UridValue => Quoted(e.unmap(body.bits))
    case UriValue => Quoted(CStr(body.bytes))
    case IntValue => Decimal(Int32Of(body.bits))
    case LongValue => Decimal(Int64Of(body.wide))
    case FloatValue => Clipped(e.showFloat(body.bits))
    case DoubleValue => Clipped(e.showDouble(body.wide))
    case BoolValue => if Int32Of(body.bits) != 0 then "true" else "false"
    case VectorValue => "[" + Join(Elements(f, e, typ, size, body)) + "]"
    case ObjectValue =>
      Opening(e.unmap(body.otype)) + "{" + TypeEntry(f, e, typ, body.id) +
      Concat(Members(f, e, typ, size, body)) + "}" + "}"
    case PathValue => Opening("#path") + Quoted(CStr(body.bytes)) + "}"
    case Unsupported => "null"
  }

  /** The renderings of a vector's children, each with the vector's child type and size. */
  function Elements(f: Forge, e: Env, typ: uint32, size: uint32, body: Body): (r: seq<string>)
    requires WellFormed(f, typ, size, body) && Classify(f, typ, size) == VectorValue
    ensures |r| == |body.children|
    decreases body, 0
  {
    seq(|body.children|, k requires 0 <= k < |body.children| =>
      Render(f, e, body.childType, body.childSize, body.children[k]))
  }

  /** The `,"<key>":<value>` entries of an object's properties, in stored order. */
  function Members(f: Forge, e: Env, typ: uint32, size: uint32, body: Body): (r: seq<string>)
    requires WellFormed(f, typ, size, body) && Classify(f, typ, size) == ObjectValue
    ensures |r| == |body.props|
    decreases body, 0
  {
    seq(|body.props|, k requires 0 <= k < |body.props| =>
      var v := body.props[k].value;
      "," + Quoted(e.unmap(body.props[k].key)) + ":" + Render(f, e, v.typ, v.size, v.body))
  }

  /** The line `atom_writer_format` writes. */
  function Record(f: Forge, e: Env, instance: int32, symbol: CString, a: Atom): (r: string)
    requires WellFormed(f, a.typ, a.size, a.body)
    ensures Header(instance as int, symbol) + Opening(symbol) <= r
    ensures |r| >= 2 && r[|r| - 2..] == "}\n"
  {
    Header(instance as int, symbol) + Opening(symbol) +
    Render(f, e, a.typ, a.size, a.body) + "}" + "\n"
  }

  // ---------------------------------------------------------------------------
  // What each branch writes.

  /**
   * `null` is written for the empty atom (tag 0 and size 0), whatever the
   * forge's tags are, and for a tag the encoder does not recognise.
   */
  lemma RenderNull(f: Forge, e: Env, typ: uint32, size: uint32, body: Body)
    requires (typ == 0 && size == 0) ||
      (typ != f.String && typ != f.URID && typ != f.URI && typ != f.Int && typ != f.Long &&
       typ != f.Float && typ != f.Double && typ != f.Bool && typ != f.Vector &&
       !f.isObjectType(typ) && typ != f.Path)
    ensures WellFormed(f, typ, size, body)
    ensures Render(f, e, typ, size, body) == "null"
  {
  }

  /** A Bool writes `false` exactly when its 32-bit body is zero, and `true` otherwise. */
  lemma RenderBool(f: Forge, e: Env, typ: uint32, size: uint32, body: Body)
    requires WellFormed(f, typ, size, body) && Classify(f, typ, size) == BoolValue
    ensures body.Word?
    ensures Render(f, e, typ, size, body) == "false" <==> body.bits == 0
    ensures Render(f, e, typ, size, body) == "true" <==> body.bits != 0
  {
  }

  /**
   * An Int writes a signed decimal that reads back as its body taken as an
   * `int32_t`; at most 11 bytes, so the 64-byte print buffer never cuts it.
   */
  lemma RenderInt(f: Forge, e: Env, typ: uint32, size: uint32, body: Body)
    requires WellFormed(f, typ, size, body) && Classify(f, typ, size) == IntValue
    ensures body.Word?
    ensures var r := Render(f, e, typ, size, body);
      && |r| >= 1
      && (forall i :: (if r[0] == '-' then 1 else 0) <= i < |r| ==> '0' <= r[i] <= '9')
      && ParseDecimal(r) == Int32Of(body.bits)
      && |r| <= 11
  {
    Int32Width(Int32Of(body.bits));
    DecimalRoundTrip(Int32Of(body.bits));
  }

  /** An `int32_t` prints in at most 11 bytes. */
  lemma Int32Width(n: int)
    requires -0x8000_0000 <= n < 0x8000_0000
    ensures |Decimal(n)| <= 11
  {
    assert Pow10(10) == 10_000_000_000;
    DecimalLength(n, 10);
  }

  /** An `int64_t` prints in at most 20 bytes. */
  lemma Int64Width(n: int)
    requires -0x8000_0000_0000_0000 <= n < 0x8000_0000_0000_0000
    ensures |Decimal(n)| <= 20
  {
    assert Pow10(10) == 10_000_000_000 && Pow10(9) == 1_000_000_000;
    Pow10Add(10, 9);
    DecimalLength(n, 19);
  }

  /**
   * A Long writes a signed decimal that reads back as its body taken as an
   * `int64_t`; at most 20 bytes, so the 64-byte print buffer never cuts it.
   */
  lemma RenderLong(f: Forge, e: Env, typ: uint32, size: uint32, body: Body)
    requires WellFormed(f, typ, size, body) && Classify(f, typ, size) == LongValue
    ensures body.DWord?
    ensures var r := Render(f, e, typ, size, body);
      && |r| >= 1
      && (forall i :: (if r[0] == '-' then 1 else 0) <= i < |r| ==> '0' <= r[i] <= '9')
      && ParseDecimal(r) == Int64Of(body.wide)
      && |r| <= 20
  {
    Int64Width(Int64Of(body.wide));
    DecimalRoundTrip(Int64Of(body.wide));
  }

  /**
   * String and URI atoms write their text up to its NUL, and URID atoms the
   * unmapped URI, as one string literal that a JSON reader decodes back to
   * that text with nothing left over.
   */
  lemma RenderText(f: Forge, e: Env, typ: uint32, size: uint32, body: Body)
    requires WellFormed(f, typ, size, body)
    requires Classify(f, typ, size) in {StringValue, UriValue, UridValue}
    ensures Classify(f, typ, size) == UridValue ==> body.Word?
    ensures Classify(f, typ, size) != UridValue ==> body.Chars?
    ensures var text := if Classify(f, typ, size) == UridValue then e.unmap(body.bits) else CStr(body.bytes);
      var r := Render(f, e, typ, size, body);
      |r| >= 2 && r[0] == '"' && ReadString(r[1..]) == Some((text, ""))
  {
    var text := if Classify(f, typ, size) == UridValue then e.unmap(body.bits) else CStr(body.bytes);
    ReadQuoted(text, "");
    assert Quoted(text)[1..] + "" == Quoted(text)[1..];
  }

  /** Float writes the `"%f"` text of its 32-bit body, cut to the 63 bytes the print buffer holds. */
  lemma RenderFloat(f: Forge, e: Env, typ: uint32, size: uint32, body: Body)
    requires WellFormed(f, typ, size, body) && Classify(f, typ, size) == FloatValue
    ensures body.Word?
    ensures var r := Render(f, e, typ, size, body);
      r <= e.showFloat(body.bits) && |r| == if |e.showFloat(body.bits)| <= NumberRoom then |e.showFloat(body.bits)| else NumberRoom
  {
  }

  /** Double writes the `"%f"` text of its 64-bit body, cut to the 63 bytes the print buffer holds. */
  lemma RenderDouble(f: Forge, e: Env, typ: uint32, size: uint32, body: Body)
    requires WellFormed(f, typ, size, body) && Classify(f, typ, size) == DoubleValue
    ensures body.DWord?
    ensures var r := Render(f, e, typ, size, body);
      r <= e.showDouble(body.wide) && |r| == if |e.showDouble(body.wide)| <= NumberRoom then |e.showDouble(body.wide)| else NumberRoom
  {
  }

  /**
   * A Path writes a one-key object: `{"#path":`, then a string literal that a
   * JSON reader decodes back to the path up to its NUL, then `}`.
   */
  lemma RenderPath(f: Forge, e: Env, typ: uint32, size: uint32, body: Body)
    requires WellFormed(f, typ, size, body) && Classify(f, typ, size) == PathValue
    ensures body.Chars?
    ensures Render(f, e, typ, size, body) == "{\"#path\":" + Quoted(CStr(body.bytes)) + "}"
    ensures ReadString(Quoted(CStr(body.bytes))[1..] + "}") == Some((CStr(body.bytes), "}"))
  {
    PathOpening();
    ReadQuoted(CStr(body.bytes), "}");
  }

  lemma PathOpening()
    ensures Opening("#path") == "{\"#path\":"
  {
    EscapeVerbatim("#path");
  }

  /** A vector whose size leaves no room past its header has no children and writes `[]`. */
  lemma RenderEmptyVector(f: Forge, e: Env, typ: uint32, size: uint32, body: Body)
    requires WellFormed(f, typ, size, body) && Classify(f, typ, size) == VectorValue
    requires size as nat <= VectorHeader
    ensures body.Vec? && body.children == []
    ensures Render(f, e, typ, size, body) == "[]"
  {
    VectorShape(f, e, typ, size, body);
    assert Elements(f, e, typ, size, body) == [];
  }

  // ---------------------------------------------------------------------------
  // One step at a time: what the encoder's loops use of the definitions above.

  /** The shape of a well-formed vector: the loop visits every child. */
  lemma VectorShape(f: Forge, e: Env, typ: uint32, size: uint32, body: Body)
    ensures WellFormed(f, typ, size, body) && Classify(f, typ, size) == VectorValue ==>
      && body.Vec?
      && (size as nat > VectorHeader ==> body.childSize > 0)
      && |body.children| == Strides(VectorHeader, size as nat, body.childSize as nat)
      && Render(f, e, typ, size, body) == "[" + Join(Elements(f, e, typ, size, body)) + "]"
  {
  }

  /** A child of a well-formed vector is well-formed, and rendered with the vector's child type and size. */
  lemma VectorChild(f: Forge, e: Env, typ: uint32, size: uint32, body: Body, k: nat)
    requires body.Vec? && k < |body.children|
    ensures WellFormed(f, typ, size, body) && Classify(f, typ, size) == VectorValue ==>
      WellFormed(f, body.childType, body.childSize, body.children[k]) &&
      Elements(f, e, typ, size, body)[k] == Render(f, e, body.childType, body.childSize, body.children[k])
  {
  }

  /** The shape of a well-formed object's rendering. */
  lemma ObjectShape(f: Forge, e: Env, typ: uint32, size: uint32, body: Body)
    ensures WellFormed(f, typ, size, body) && Classify(f, typ, size) == ObjectValue ==>
      && body.Obj?
      && Render(f, e, typ, size, body) ==
           Opening(e.unmap(body.otype)) + "{" + TypeEntry(f, e, typ, body.id) +
           Concat(Members(f, e, typ, size, body)) + "}" + "}"
  {
  }

  /** A property value of a well-formed object is well-formed, and rendered after its quoted key. */
  lemma ObjectMember(f: Forge, e: Env, typ: uint32, size: uint32, body: Body, k: nat)
    requires body.Obj? && k < |body.props|
    ensures WellFormed(f, typ, size, body) && Classify(f, typ, size) == ObjectValue ==>
      WellFormed(f, body.props[k].value.typ, body.props[k].value.size, body.props[k].value.body) &&
      Members(f, e, typ, size, body)[k] ==
        "," + Quoted(e.unmap(body.props[k].key)) + ":" +
        Render(f, e, body.props[k].value.typ, body.props[k].value.size, body.props[k].value.body)
  {
  }

  /** One turn of the vector loop's cursor. */
  lemma StridesStep(from: nat, size: nat, stride: nat)
    requires stride > 0 || from >= size
    ensures Strides(from, size, stride) == if from < size then 1 + Strides(from + stride, size, stride) else 0
  {
  }
}
