/**
 * The bounded sink of the atom writer, as values: the writer's byte buffer,
 * its length and its sticky overflow flag, what one `sink` call does to
 * them, and what any sequence of `sink` calls does. The class in module
 * Writer is proved to behave as these functions say.
 */
module Bounded {
  import opened Text

  /** The whole buffer `mem` (its length is the capacity), the text length and the overflow flag. */
  datatype SinkState = SinkState(mem: seq<char>, len: nat, overflow: bool)
  {
    /** The text always leaves room for, and ends with, a NUL terminator. */
    ghost predicate Valid() {
      len < |mem| && mem[len] == '\0'
    }

    /** The text written so far. */
    function Data(): string
      requires len <= |mem|
    {
      mem[..len]
    }
  }

  /**
   * `sink(writer, s, |s|)`: nothing once overflowed or for empty input; an
   * append that would not leave room for the terminator sets the overflow flag
   * and writes nothing; otherwise the bytes go after the text and a NUL after them.
   */
  function Append(st: SinkState, s: string): (r: SinkState)
    requires st.Valid()
    ensures r.Valid() && |r.mem| == |st.mem|
  {
    if st.overflow || |s| == 0 then st
    else if st.len + |s| >= |st.mem| then st.(overflow := true)
    else SinkState(st.mem[..st.len] + s + ['\0'] + st.mem[st.len + |s| + 1..], st.len + |s|, false)
  }

  /**
   * One `sink` call overflows exactly when non-empty input would not leave
   * room for the terminator, and then writes nothing; otherwise its bytes are
   * appended. Bytes past the new terminator are never touched.
   */
  lemma AppendSpec(st: SinkState, s: string)
    requires st.Valid()
    ensures var r := Append(st, s);
      && r.overflow == (st.overflow || (|s| > 0 && st.len + |s| >= |st.mem|))
      && (!r.overflow ==> r.Data() == st.Data() + s)
      && (r.overflow ==> r.Data() == st.Data())
      && r.mem[r.len + 1..] == st.mem[r.len + 1..]
  {
  }

  /** The state after `sink` is called on each chunk in turn. */
  function SinkAll(st: SinkState, chunks: seq<string>): (r: SinkState)
    requires st.Valid()
    ensures r.Valid() && |r.mem| == |st.mem|
  {
    if chunks == [] then st
    else Append(SinkAll(st, chunks[..|chunks| - 1]), chunks[|chunks| - 1])
  }

  /** `b` is what some sequence of `sink` calls, whose bytes make up `t`, leaves behind from `a`. */
  ghost predicate Writes(a: SinkState, t: string, b: SinkState)
  {
    exists chunks :: a.Valid() && Concat(chunks) == t && SinkAll(a, chunks) == b
  }

  /**
   * What writing `t` from `a` can leave: the buffer overflows exactly when
   * the text, `t` and the terminator do not fit, and stays overflowed.
   * Without overflow `t` is appended; with it, the text is the old text
   * followed by a prefix of `t`. Bytes past the terminator are never touched,
   * so with `Valid` this fixes the whole buffer.
   */
  ghost predicate Outcome(a: SinkState, t: string, b: SinkState)
  {
    a.Valid() && b.Valid() && |b.mem| == |a.mem| &&
    b.overflow == (a.overflow || a.len + |t| >= |a.mem|) &&
    (a.overflow ==> b == a) &&
    (!a.overflow ==> a.len <= b.len <= a.len + |t| && b.Data() == (a.Data() + t)[..b.len]) &&
    (!b.overflow ==> b.len == a.len + |t|) &&
    b.mem[b.len + 1..] == a.mem[b.len + 1..]
  }

  /** One `sink` call writes its bytes. */
  lemma AppendWrites(a: SinkState, s: string)
    requires a.Valid()
    ensures Writes(a, s, Append(a, s))
  {
    var chunks := [s];
    assert chunks[..0] == [];
    assert Concat(chunks) == s;
    assert SinkAll(a, chunks) == Append(a, s);
  }

  /** Nothing written leaves the state alone. */
  lemma WritesNothing(a: SinkState)
    requires a.Valid()
    ensures Writes(a, "", a)
  {
    assert Concat([]) == "" && SinkAll(a, []) == a;
  }

  /** Restating the text written as an equal one. */
  lemma WritesSame(a: SinkState, t: string, u: string, b: SinkState)
    requires Writes(a, t, b) && t == u
    ensures Writes(a, u, b)
  {
  }

  lemma {:induction false} ConcatAppend(c1: seq<string>, c2: seq<string>)
    ensures Concat(c1 + c2) == Concat(c1) + Concat(c2)
    decreases |c2|
  {
    if c2 == [] {
      assert c1 + c2 == c1;
    } else {
      var n := |c2| - 1;
      assert (c1 + c2)[..|c1 + c2| - 1] == c1 + c2[..n];
      ConcatAppend(c1, c2[..n]);
    }
  }

  lemma {:induction false} SinkAllAppend(a: SinkState, c1: seq<string>, c2: seq<string>)
    requires a.Valid()
    ensures SinkAll(a, c1 + c2) == SinkAll(SinkAll(a, c1), c2)
    decreases |c2|
  {
    if c2 == [] {
      assert c1 + c2 == c1;
    } else {
      var n := |c2| - 1;
      assert (c1 + c2)[..|c1 + c2| - 1] == c1 + c2[..n];
      SinkAllAppend(a, c1, c2[..n]);
    }
  }

  /** Writing `t1` and then `t2` is writing `t1 + t2`. */
  lemma WritesTrans(a: SinkState, t1: string, b: SinkState, t2: string, c: SinkState)
    requires Writes(a, t1, b) && Writes(b, t2, c)
    ensures Writes(a, t1 + t2, c)
  {
    var c1 :| Concat(c1) == t1 && SinkAll(a, c1) == b;
    var c2 :| Concat(c2) == t2 && SinkAll(b, c2) == c;
    ConcatAppend(c1, c2);
    SinkAllAppend(a, c1, c2);
    assert Concat(c1 + c2) == t1 + t2 && SinkAll(a, c1 + c2) == c;
  }

  /** Appending nothing is a possible outcome. */
  lemma OutcomeNothing(a: SinkState)
    requires a.Valid()
    ensures Outcome(a, "", a)
  {
    assert a.Data() + "" == a.Data();
  }

  /** An outcome of `t`, then one `sink` call of `s`, is an outcome of `t + s`. */
  lemma OutcomeAppend(a: SinkState, t: string, b: SinkState, s: string)
    requires Outcome(a, t, b)
    ensures Outcome(a, t + s, Append(b, s))
  {
    var c := Append(b, s);
    AppendSpec(b, s);
    if !a.overflow {
      if !b.overflow {
        assert b.Data() == a.Data() + t;
        if !c.overflow {
          assert c.Data() == a.Data() + (t + s);
        } else {
          assert (a.Data() + t)[..b.len] == (a.Data() + (t + s))[..b.len];
        }
      } else {
        assert c == b;
        assert (a.Data() + t)[..b.len] == (a.Data() + (t + s))[..b.len];
      }
    }
  }

  /** Whatever sequence of `sink` calls wrote `t`, the result is an outcome of `t`. */
  lemma {:induction false} SinkAllOutcome(a: SinkState, chunks: seq<string>)
    requires a.Valid()
    ensures Outcome(a, Concat(chunks), SinkAll(a, chunks))
    decreases |chunks|
  {
    if chunks == [] {
      OutcomeNothing(a);
    } else {
      var n := |chunks| - 1;
      SinkAllOutcome(a, chunks[..n]);
      OutcomeAppend(a, Concat(chunks[..n]), SinkAll(a, chunks[..n]), chunks[n]);
    }
  }

  /**
   * The sink is all-or-nothing as a whole: writing `t` in any number of
   * `sink` calls either appends all of `t` or overflows, and the overflow
   * happens exactly when `t` does not fit.
   */
  lemma WritesOutcome(a: SinkState, t: string, b: SinkState)
    requires Writes(a, t, b)
    ensures Outcome(a, t, b)
  {
    var chunks :| Concat(chunks) == t && SinkAll(a, chunks) == b;
    SinkAllOutcome(a, chunks);
  }

  /**
   * Started from an empty, non-overflowed buffer, writing `t` overflows
   * exactly when `t` and its terminator do not fit, and otherwise leaves `t`
   * as the whole text.
   */
  lemma WritesFromEmpty(a: SinkState, t: string, b: SinkState)
    requires a.Valid() && a.len == 0 && !a.overflow
    requires Writes(a, t, b)
    ensures b.overflow <==> |t| >= |a.mem|
    ensures !b.overflow ==> b.Data() == t
    ensures b.overflow ==> b.Data() == t[..b.len]
  {
    WritesOutcome(a, t, b);
    assert a.Data() == [];
    assert a.Data() + t == t;
  }
}
