/**
 * The atom writer itself: a fixed-size character buffer with a length and a
 * sticky overflow flag, and the functions of atom-writer.c that append to it.
 * Every method that writes is proved to append, in the sense of
 * `Bounded.Writes`, exactly the text the pure functions of Text and Atoms
 * give; `Sink` is proved to be `Bounded.Append` on the whole buffer.
 *
 * `Bounded.WritesSame`, `Text.EscapeNone`, `Text.EscapeAll`, `Text.JoinNone`,
 * `Text.ConcatNone` and the `hide` statements in the methods below model
 * nothing of the C file: they only carry the verifier past definitions that
 * are hidden to keep each proof small.
 */
module Writer {
  import opened Text
  import opened Bounded
  import opened Atoms

  class AtomWriter {
    /** The output buffer; its length is the capacity, terminator included. */
    const buf: array<char>
    var len: nat
    var overflow: bool
    var forge: Forge
    var env: Env

    /** The sink as a value. */
    ghost function State(): SinkState
      reads this, buf
    {
      SinkState(buf[..], len, overflow)
    }

    ghost predicate Valid()
      reads this, buf
    {
      State().Valid()
    }

    /** A writer with a `capacity`-byte buffer, initialised as `atom_writer_init` does. */
    constructor (capacity: nat, forge: Forge, env: Env)
      requires capacity > 0
      ensures Valid() && fresh(buf) && buf.Length == capacity
      ensures len == 0 && !overflow && this.forge == forge && this.env == env
    {
      buf := new char[capacity];
      this.forge := forge;
      this.env := env;
      overflow := false;
      len := 0;
      new;
      buf[0] := '\0';
    }

    /**
     * `atom_writer_init`: binds the forge and the unmapping service and
     * empties the sink; the only operation that clears the overflow flag.
     */
    method Init(forge: Forge, env: Env)
      requires buf.Length > 0
      modifies this, buf
      ensures Valid() && len == 0 && !overflow
      ensures this.forge == forge && this.env == env
      ensures buf[1..] == old(buf[1..])
    {
      this.env := env;
      this.forge := forge;
      overflow := false;
      len := 0;
      buf[0] := '\0';
    }

    /** `sink`: all-or-nothing append of `s`, keeping a NUL after the text. */
    method Sink(s: string)
      requires Valid()
      modifies this`len, this`overflow, buf
      ensures Valid()
      ensures State() == Append(old(State()), s)
      ensures Writes(old(State()), s, State())
    {
      hide Writes;
      ghost var s0 := State();
      AppendWrites(s0, s);
      if overflow || |s| == 0 {
        return;
      }
      if len + |s| >= buf.Length {
        overflow := true;
        return;
      }
      forall i | 0 <= i < |s| {
        buf[len + i] := s[i];
      }
      len := len + |s|;
      buf[len] := '\0';
      assert buf[..] == s0.mem[..s0.len] + s + ['\0'] + s0.mem[len + 1..];
    }

    /** `sink_string`: the bytes of a C string, up to its terminator. */
    method SinkString(s: CString)
      requires Valid()
      modifies this`len, this`overflow, buf
      ensures Valid()
      ensures State() == Append(old(State()), s)
      ensures Writes(old(State()), s, State())
    {
      Sink(s);
    }

    /** `sink_escape`: `str` as a quoted string literal, quotes and backslashes escaped. */
    method SinkEscape(str: CString)
      requires Valid()
      modifies this`len, this`overflow, buf
      ensures Valid()
      ensures Writes(old(State()), Quoted(str), State())
    {
      hide Append, Writes, Escape;
      ghost var s0 := State();
      Sink("\"");
      var pos := 0;
      EscapeNone(str);
      while true
        invariant pos <= |str|
        invariant Valid()
        invariant Writes(s0, "\"" + Escape(str[..pos]), State())
        decreases |str| - pos
      {
        var off := Cspn(str[pos..]);
        var run := str[pos..pos + off];
        ghost var m0 := State();
        Sink(run);
        WritesTrans(s0, "\"" + Escape(str[..pos]), m0, run, State());
        EscapeRun(str, pos, off);
        WritesSame(s0, "\"" + Escape(str[..pos]) + run, "\"" + Escape(str[..pos + off]), State());
        if off == |str| - pos {
          EscapeAll(str, pos + off);
          WritesSame(s0, "\"" + Escape(str[..pos + off]), "\"" + Escape(str), State());
          break;
        }
        ghost var m1 := State();
        Sink("\\");
        WritesTrans(s0, "\"" + Escape(str[..pos + off]), m1, "\\", State());
        ghost var m2 := State();
        Sink([str[pos + off]]);
        WritesTrans(s0, "\"" + Escape(str[..pos + off]) + "\\", m2, [str[pos + off]], State());
        EscapeSpecial(str, pos + off);
        WritesSame(s0, "\"" + Escape(str[..pos + off]) + "\\" + [str[pos + off]],
                   "\"" + Escape(str[..pos + off + 1]), State());
        pos := pos + off + 1;
        if pos == |str| {
          EscapeAll(str, pos);
          WritesSame(s0, "\"" + Escape(str[..pos]), "\"" + Escape(str), State());
          break;
        }
      }
      ghost var m3 := State();
      Sink("\"");
      WritesTrans(s0, "\"" + Escape(str), m3, "\"", State());
    }

    /** `sink_begin_object`: an opening brace, the quoted key and a colon. */
    method SinkBeginObject(name: CString)
      requires Valid()
      modifies this`len, this`overflow, buf
      ensures Valid()
      ensures Writes(old(State()), Opening(name), State())
    {
      ghost var s0 := State();
      Sink("{");
      ghost var s1 := State();
      SinkEscape(name);
      WritesTrans(s0, "{", s1, Quoted(name), State());
      ghost var s2 := State();
      Sink(":");
      WritesTrans(s0, "{" + Quoted(name), s2, ":", State());
    }

    /** `sink_end_object`: a closing brace. */
    method SinkEndObject()
      requires Valid()
      modifies this`len, this`overflow, buf
      ensures Valid()
      ensures Writes(old(State()), "}", State())
    {
      Sink("}");
    }

    /** `serialize_atom`: the JSON text of an atom, dispatched on its type tag. */
    method SerializeAtom(typ: uint32, size: uint32, body: Body)
      requires Valid() && WellFormed(forge, typ, size, body)
      modifies this`len, this`overflow, buf
      ensures Valid()
      ensures Writes(old(State()), Render(forge, env, typ, size, body), State())
      decreases body, 1
    {
      hide Append, Writes;
      match Classify(forge, typ, size)
      case NullLiteral =>
        SinkString("null");
      case StringValue =>
        SinkEscape(CStr(body.bytes));
      case UridValue =>
        SinkEscape(env.unmap(body.bits));
      case UriValue =>
        SinkEscape(CStr(body.bytes));
      case IntValue =>
        SinkString(Decimal(Int32Of(body.bits)));
      case LongValue =>
        SinkString(Decimal(Int64Of(body.wide)));
      case FloatValue =>
        SinkString(Clipped(env.showFloat(body.bits)));
      case DoubleValue =>
        SinkString(Clipped(env.showDouble(body.wide)));
      case BoolValue =>
        SinkString(if Int32Of(body.bits) != 0 then "true" else "false");
      case VectorValue =>
        SerializeVector(typ, size, body);
      case ObjectValue =>
        SerializeObject(typ, size, body);
      case PathValue =>
        SerializePath(CStr(body.bytes));
      case Unsupported =>
        SinkString("null");
    }

    /** The path branch: a one-entry object whose key is `#path`. */
    method SerializePath(path: CString)
      requires Valid()
      modifies this`len, this`overflow, buf
      ensures Valid()
      ensures Writes(old(State()), Opening("#path") + Quoted(path) + "}", State())
    {
      hide Append, Writes;
      ghost var s0 := State();
      SinkBeginObject("#path");
      ghost var s1 := State();
      SinkEscape(path);
      WritesTrans(s0, Opening("#path"), s1, Quoted(path), State());
      ghost var s2 := State();
      SinkEndObject();
      WritesTrans(s0, Opening("#path") + Quoted(path), s2, "}", State());
    }

    /** The vector branch: `[`, the children joined by commas, `]`. */
    method SerializeVector(typ: uint32, size: uint32, body: Body)
      requires Valid() && WellFormed(forge, typ, size, body)
      requires Classify(forge, typ, size) == VectorValue
      modifies this`len, this`overflow, buf
      ensures Valid()
      ensures Writes(old(State()), Render(forge, env, typ, size, body), State())
      decreases body, 0
    {
      VectorShape(forge, env, typ, size, body);
      hide Append, Writes, WellFormed, Render, Classify, Strides, Join;
      ghost var s0 := State();
      ghost var parts := Elements(forge, env, typ, size, body);
      Sink("[");
      var stride := body.childSize as nat;
      var first := true;
      var i := VectorHeader;
      var k := 0;
      JoinNone("[", parts);
      while i < size as nat
        invariant Valid()
        invariant stride > 0 || i >= size as nat
        invariant 0 <= k <= |body.children|
        invariant |body.children| - k == Strides(i, size as nat, stride)
        invariant first == (k == 0)
        invariant Writes(s0, "[" + Join(parts[..k]), State())
        decreases size as nat - i
      {
        StridesStep(i, size as nat, stride);
        VectorChild(forge, env, typ, size, body, k);
        ghost var m0 := State();
        SerializeElement(first, body.childType, body.childSize, body.children[k]);
        first := false;
        WritesTrans(s0, "[" + Join(parts[..k]), m0, (if k == 0 then "" else ",") + parts[k], State());
        JoinStep("[", parts, k);
        i := i + stride;
        k := k + 1;
      }
      StridesStep(i, size as nat, stride);
      assert parts[..k] == parts;
      ghost var m1 := State();
      Sink("]");
      WritesTrans(s0, "[" + Join(parts), m1, "]", State());
    }

    /** One turn of the vector loop: a comma unless this is the first child, then the child. */
    method SerializeElement(first: bool, typ: uint32, size: uint32, body: Body)
      requires Valid() && WellFormed(forge, typ, size, body)
      modifies this`len, this`overflow, buf
      ensures Valid()
      ensures Writes(old(State()), (if first then "" else ",") + Render(forge, env, typ, size, body), State())
      decreases body, 2
    {
      hide Append, Writes, Render;
      ghost var s0 := State();
      if first {
        WritesNothing(s0);
      } else {
        Sink(",");
      }
      ghost var s1 := State();
      SerializeAtom(typ, size, body);
      WritesTrans(s0, if first then "" else ",", s1, Render(forge, env, typ, size, body), State());
    }

    /**
     * The object branch: `{"<type name>":{` and the `"#type"` entry, then
     * `,"<key>":<value>` for every property in stored order, then `}}`.
     */
    method SerializeObject(typ: uint32, size: uint32, body: Body)
      requires Valid() && WellFormed(forge, typ, size, body)
      requires Classify(forge, typ, size) == ObjectValue
      modifies this`len, this`overflow, buf
      ensures Valid()
      ensures Writes(old(State()), Render(forge, env, typ, size, body), State())
      decreases body, 0
    {
      ObjectShape(forge, env, typ, size, body);
      hide Append, Writes, WellFormed, Render, Classify, Concat, Members;
      ghost var s0 := State();
      ghost var members := Members(forge, env, typ, size, body);
      var otype := env.unmap(body.otype);
      SinkBeginObject(otype);
      ghost var m0 := State();
      Sink("{");
      WritesTrans(s0, Opening(otype), m0, "{", State());
      ghost var m1 := State();
      SerializeTypeEntry(typ, body.id);
      WritesTrans(s0, Opening(otype) + "{", m1, TypeEntry(forge, env, typ, body.id), State());
      ghost var head := Opening(otype) + "{" + TypeEntry(forge, env, typ, body.id);
      var k := 0;
      ConcatNone(head, members);
      while k < |body.props|
        invariant Valid()
        invariant 0 <= k <= |body.props|
        invariant Writes(s0, head + Concat(members[..k]), State())
      {
        ObjectMember(forge, env, typ, size, body, k);
        var prop := body.props[k];
        ghost var p0 := State();
        SerializeMember(env.unmap(prop.key), prop.value.typ, prop.value.size, prop.value.body);
        WritesTrans(s0, head + Concat(members[..k]), p0, members[k], State());
        ConcatStep(head, members, k);
        k := k + 1;
      }
      assert members[..k] == members;
      ghost var m3 := State();
      Sink("}");
      WritesTrans(s0, head + Concat(members), m3, "}", State());
      ghost var m4 := State();
      SinkEndObject();
      WritesTrans(s0, head + Concat(members) + "}", m4, "}", State());
    }

    /** The `"#type"` entry that opens an object's value: null for a blank object, else its id quoted. */
    method SerializeTypeEntry(typ: uint32, id: uint32)
      requires Valid()
      modifies this`len, this`overflow, buf
      ensures Valid()
      ensures Writes(old(State()), TypeEntry(forge, env, typ, id), State())
    {
      hide Append, Writes;
      if forge.isBlank(typ, id) {
        SinkString("\"#type\":null");
      } else {
        ghost var s0 := State();
        SinkString("\"#type\":");
        ghost var s1 := State();
        SinkEscape(env.unmap(id));
        WritesTrans(s0, "\"#type\":", s1, Quoted(env.unmap(id)), State());
      }
    }

    /** One turn of the object loop: a comma, the quoted key, a colon and the value. */
    method SerializeMember(key: CString, typ: uint32, size: uint32, body: Body)
      requires Valid() && WellFormed(forge, typ, size, body)
      modifies this`len, this`overflow, buf
      ensures Valid()
      ensures Writes(old(State()), "," + Quoted(key) + ":" + Render(forge, env, typ, size, body), State())
      decreases body, 2
    {
      hide Append, Writes, Render;
      ghost var s0 := State();
      Sink(",");
      ghost var s1 := State();
      SinkEscape(key);
      WritesTrans(s0, ",", s1, Quoted(key), State());
      ghost var s2 := State();
      Sink(":");
      WritesTrans(s0, "," + Quoted(key), s2, ":", State());
      ghost var s3 := State();
      SerializeAtom(typ, size, body);
      WritesTrans(s0, "," + Quoted(key) + ":", s3, Render(forge, env, typ, size, body), State());
    }

    /**
     * `atom_writer_format`: the record line for one atom, appended after
     * whatever the buffer holds; -1 when the buffer has overflowed, else 0.
     */
    method Format(instance: int32, symbol: CString, typ: uint32, size: uint32, body: Body)
      returns (status: int)
      requires Valid() && WellFormed(forge, typ, size, body)
      modifies this`len, this`overflow, buf
      ensures Valid()
      ensures Writes(old(State()), Record(forge, env, instance, symbol, Atom(typ, size, body)), State())
      ensures status == if overflow then -1 else 0
      ensures old(len) == 0 && !old(overflow) ==>
        var record := Record(forge, env, instance, symbol, Atom(typ, size, body));
        && (status == 0 <==> |record| < buf.Length)
        && (status == 0 ==> buf[..len] == record)
        && (status != 0 ==> buf[..len] == record[..len])
    {
      hide Append, Writes;
      ghost var s0 := State();
      var hdr := Header(instance as int, symbol);
      SinkString(hdr);
      ghost var s1 := State();
      SinkBeginObject(symbol);
      WritesTrans(s0, hdr, s1, Opening(symbol), State());
      ghost var s2 := State();
      SerializeAtom(typ, size, body);
      WritesTrans(s0, hdr + Opening(symbol), s2, Render(forge, env, typ, size, body), State());
      ghost var s3 := State();
      SinkEndObject();
      WritesTrans(s0, hdr + Opening(symbol) + Render(forge, env, typ, size, body), s3, "}", State());
      ghost var s4 := State();
      Sink("\n");
      WritesTrans(s0, hdr + Opening(symbol) + Render(forge, env, typ, size, body) + "}", s4, "\n", State());
      status := if overflow then -1 else 0;
      if s0.len == 0 && !s0.overflow {
        WritesFromEmpty(s0, Record(forge, env, instance, symbol, Atom(typ, size, body)), State());
      }
    }
  }
}
