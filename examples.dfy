/**
 * Concrete renderings, worked through the definitions: an escaped string,
 * a negative Int, a vector of Ints, a blank object with one property and a
 * whole record line.
 */
module Examples {
  import opened Text
  import opened Atoms

  /** Tag numbers for a forge; 11 is the one object type, and id 0 marks a blank object. */
  const SampleForge := Forge(
    String := 1, URID := 2, URI := 3, Int := 4, Long := 5, Float := 6,
    Double := 7, Bool := 8, Vector := 9, Path := 10,
    isObjectType := t => t == 11,
    isBlank := (t, id) => id == 0)

  /** URIDs 20 and 21 unmap to "Foo" and "bar"; floats are not used here. */
  const SampleEnv := Env(
    unmap := u => if u == 20 then "Foo" else if u == 21 then "bar" else "",
    showFloat := w => "",
    showDouble := w => "")

  lemma EscapeExample()
    ensures Quoted("a\"b\\c") == "\"a\\\"b\\\\c\""
  {
  }

  lemma IntExample()
    ensures Render(SampleForge, SampleEnv, 4, 4, Word(0xFFFF_FFD6)) == "-42"
  {
  }

  lemma VectorExample()
    ensures WellFormed(SampleForge, 9, 20, Vec(4, 4, [Word(1), Word(2), Word(3)]))
    ensures Render(SampleForge, SampleEnv, 9, 20, Vec(4, 4, [Word(1), Word(2), Word(3)])) == "[1,2,3]"
  {
    var body := Vec(4, 4, [Word(1), Word(2), Word(3)]);
    assert Strides(VectorHeader, 20, 4) == 3;
    VectorShape(SampleForge, SampleEnv, 9, 20, body);
    VectorChild(SampleForge, SampleEnv, 9, 20, body, 0);
    VectorChild(SampleForge, SampleEnv, 9, 20, body, 1);
    VectorChild(SampleForge, SampleEnv, 9, 20, body, 2);
    var parts := Elements(SampleForge, SampleEnv, 9, 20, body);
    assert parts == ["1", "2", "3"];
    assert parts[..2][..1] == ["1"];
    assert parts[..2] == ["1", "2"];
  }

  /** The blank object of type "Foo" with one property, "bar", whose value is the Int 7. */
  const FooObject := Obj(20, 0, [Property(21, Atom(4, 4, Word(7)))])

  lemma FooMembers()
    ensures WellFormed(SampleForge, 11, 32, FooObject)
    ensures Concat(Members(SampleForge, SampleEnv, 11, 32, FooObject)) == ",\"bar\":7"
  {
    ObjectMember(SampleForge, SampleEnv, 11, 32, FooObject, 0);
    assert SampleEnv.unmap(21) == "bar";
    assert Quoted("bar") == "\"bar\"";
    assert Render(SampleForge, SampleEnv, 4, 4, Word(7)) == "7";
    var members := Members(SampleForge, SampleEnv, 11, 32, FooObject);
    assert members == ["," + "\"bar\"" + ":" + "7"];
    assert members[..0] == [];
  }

  lemma FooHead()
    ensures Opening(SampleEnv.unmap(20)) + "{" + TypeEntry(SampleForge, SampleEnv, 11, 0) == "{\"Foo\":{\"#type\":null"
  {
    assert SampleEnv.unmap(20) == "Foo";
    assert Quoted("Foo") == "\"Foo\"";
    assert TypeEntry(SampleForge, SampleEnv, 11, 0) == "\"#type\":null";
  }

  lemma ObjectExample()
    ensures WellFormed(SampleForge, 11, 32, FooObject)
    ensures Render(SampleForge, SampleEnv, 11, 32, FooObject) == "{\"Foo\":{\"#type\":null,\"bar\":7}}"
  {
    FooHead();
    FooMembers();
    ObjectShape(SampleForge, SampleEnv, 11, 32, FooObject);
    hide Opening, TypeEntry, Render, Members, WellFormed, Concat;
    assert "{\"Foo\":{\"#type\":null" + ",\"bar\":7" + "}" + "}" == "{\"Foo\":{\"#type\":null,\"bar\":7}}";
  }

  lemma HeaderExample()
    ensures Header(3, "gain") == "atom 3 gain "
  {
    assert Decimal(3) == "3";
  }

  lemma RecordExample()
    ensures Record(SampleForge, SampleEnv, 3, "gain", Atom(4, 4, Word(10))) == "atom 3 gain {\"gain\":10}\n"
  {
    HeaderExample();
    assert Opening("gain") == "{\"gain\":" by {
      assert Quoted("gain") == "\"gain\"";
    }
    TenExample();
    hide Header, Opening, Render;
  }

  lemma TenExample()
    ensures Render(SampleForge, SampleEnv, 4, 4, Word(10)) == "10"
  {
    assert Decimal(10) == "10";
  }
}
