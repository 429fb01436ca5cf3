/**
 * Text helpers of the atom writer: C strings, the JSON string escaper
 * (`sink_escape`), signed decimal rendering (`%d`, `%PRId64`), the
 * length-capped record header and comma joining.
 *
 * A C `char` is modelled as a Dafny `char`; the NUL byte is '\0'.
 */
module Text {

  datatype Option<T> = None | Some(value: T)

  /** A C string: the bytes before its terminating NUL. */
  type CString = s: string | '\0' !in s

  /** The bytes `strcspn(s, "\"\\")` stops at. */
  predicate Special(c: char) {
    c == '"' || c == '\\'
  }

  /** What a C string read of `b` sees: everything before the first NUL. */
  function CStr(b: string): (r: CString)
    ensures r <= b
    ensures |r| < |b| ==> b[|r|] == '\0'
  {
    if b == [] || b[0] == '\0' then [] else [b[0]] + CStr(b[1..])
  }

  /** `strcspn(s, "\"\\")`: length of the longest prefix free of quotes and backslashes. */
  function Cspn(s: string): (n: nat)
    ensures n <= |s|
    ensures forall i :: 0 <= i < n ==> !Special(s[i])
    ensures n < |s| ==> Special(s[n])
  {
    if s == [] || Special(s[0]) then 0 else 1 + Cspn(s[1..])
  }

  /** A backslash before every quote and backslash; every other byte verbatim. */
  function Escape(s: string): (r: string)
    ensures |r| >= |s|
  {
    if s == [] then []
    else (if Special(s[0]) then ['\\', s[0]] else [s[0]]) + Escape(s[1..])
  }

  /** The quoted string literal that `sink_escape` writes. */
  function Quoted(s: string): string {
    "\"" + Escape(s) + "\""
  }

  /** What `sink_begin_object` writes: an opening brace, the quoted key and a colon. */
  function Opening(name: string): string {
    "{" + Quoted(name) + ":"
  }

  lemma {:induction false} EscapeAppend(a: string, b: string)
    ensures Escape(a + b) == Escape(a) + Escape(b)
  {
    if a != [] {
      calc {
        Escape(a + b);
        { assert (a + b)[0] == a[0] && (a + b)[1..] == a[1..] + b; }
        (if Special(a[0]) then ['\\', a[0]] else [a[0]]) + Escape(a[1..] + b);
        { EscapeAppend(a[1..], b); }
        (if Special(a[0]) then ['\\', a[0]] else [a[0]]) + Escape(a[1..]) + Escape(b);
      }
    } else {
      assert a + b == b;
    }
  }

  /** Escaping changes nothing exactly when there is nothing to escape. */
  lemma {:induction false} EscapeVerbatim(s: string)
    ensures Escape(s) == s <==> forall i :: 0 <= i < |s| ==> !Special(s[i])
  {
    if s != [] {
      EscapeVerbatim(s[1..]);
      if Special(s[0]) {
        assert |Escape(s)| == 2 + |Escape(s[1..])| > |s|;
      } else {
        assert Escape(s) == [s[0]] + Escape(s[1..]);
        assert s == [s[0]] + s[1..];
        if Escape(s) == s {
          assert Escape(s[1..]) == s[1..];
        }
        assert (forall i :: 0 <= i < |s| ==> !Special(s[i]))
           <==> (forall i :: 0 <= i < |s[1..]| ==> !Special(s[1..][i]));
      }
    }
  }

  /** Escape of one byte. */
  lemma EscapeOne(c: char)
    ensures Escape([c]) == if Special(c) then ['\\', c] else [c]
  {
    assert [c][1..] == [];
  }

  /** The escaping loop starts with the opening quote alone. */
  lemma EscapeNone(str: string)
    ensures "\"" + Escape(str[..0]) == "\""
  {
    assert str[..0] == [];
  }

  /** The escaping loop ends when the whole string is consumed. */
  lemma EscapeAll(str: string, pos: nat)
    requires pos == |str|
    ensures "\"" + Escape(str[..pos]) == "\"" + Escape(str)
  {
    assert str[..pos] == str;
  }

  /** One step of the escaping loop: a run free of quotes and backslashes is copied as it is. */
  lemma EscapeRun(str: string, pos: nat, off: nat)
    requires pos + off <= |str|
    requires forall i :: pos <= i < pos + off ==> !Special(str[i])
    ensures "\"" + Escape(str[..pos]) + str[pos..pos + off] == "\"" + Escape(str[..pos + off])
  {
    hide Escape;
    var run := str[pos..pos + off];
    assert forall i :: 0 <= i < |run| ==> !Special(run[i]);
    EscapeVerbatim(run);
    assert str[..pos + off] == str[..pos] + run;
    EscapeAppend(str[..pos], run);
  }

  /** The other step: a quote or backslash gets a backslash before it. */
  lemma EscapeSpecial(str: string, p: nat)
    requires p < |str| && Special(str[p])
    ensures "\"" + Escape(str[..p]) + "\\" + [str[p]] == "\"" + Escape(str[..p + 1])
  {
    EscapeOne(str[p]);
    EscapeAppend(str[..p], [str[p]]);
    assert str[..p + 1] == str[..p] + [str[p]];
  }

  /**
   * A JSON string reader, positioned just after an opening quote: returns the
   * decoded bytes and the text after the closing quote, or None when the
   * literal is unterminated.
   */
  function ReadString(e: string): Option<(string, string)>
  {
    if e == [] then None
    else if e[0] == '"' then Some(([], e[1..]))
    else if e[0] == '\\' then
      if |e| < 2 then None
      else match ReadString(e[2..])
        case None => None
        case Some(r) => Some(([e[1]] + r.0, r.1))
    else match ReadString(e[1..])
      case None => None
      case Some(r) => Some(([e[0]] + r.0, r.1))
  }

  /**
   * The escaper's inverse: a reader that stops at the first unescaped quote
   * gets back exactly `s`, and the text after the literal is left alone.
   */
  lemma {:induction false} ReadQuoted(s: string, rest: string)
    ensures ReadString(Quoted(s)[1..] + rest) == Some((s, rest))
  {
    assert Quoted(s)[1..] == Escape(s) + "\"";
    ReadEscaped(s, rest);
  }

  lemma {:induction false} ReadEscaped(s: string, rest: string)
    ensures ReadString(Escape(s) + "\"" + rest) == Some((s, rest))
  {
    var e := Escape(s) + "\"" + rest;
    if s == [] {
      assert e == "\"" + rest;
    } else {
      ReadEscaped(s[1..], rest);
      if Special(s[0]) {
        assert e == ['\\', s[0]] + (Escape(s[1..]) + "\"" + rest);
        assert e[2..] == Escape(s[1..]) + "\"" + rest;
      } else {
        assert e == [s[0]] + (Escape(s[1..]) + "\"" + rest);
        assert e[1..] == Escape(s[1..]) + "\"" + rest;
      }
      assert s == [s[0]] + s[1..];
    }
  }

  // ---------------------------------------------------------------------------
  // Decimal integers, as printed by "%d", "%" PRId32 and "%" PRId64.

  function DigitChar(d: nat): (c: char)
    requires d < 10
    ensures '0' <= c <= '9'
  {
    ('0' as int + d) as char
  }

  function DigitValue(c: char): nat
    requires '0' <= c <= '9'
  {
    c as int - '0' as int
  }

  /** Digits of `n`, most significant first, no leading zero. */
  function Digits(n: nat): (r: string)
    ensures |r| >= 1
    ensures forall i :: 0 <= i < |r| ==> '0' <= r[i] <= '9'
    ensures (r[0] == '0') == (n == 0)
    ensures r[0] == '0' ==> |r| == 1
  {
    if n < 10 then [DigitChar(n)] else Digits(n / 10) + [DigitChar(n % 10)]
  }

  function Pow10(k: nat): (r: nat)
    ensures r >= 1
  {
    if k == 0 then 1 else 10 * Pow10(k - 1)
  }

  /** A number below `10^k` has at most `k` digits. */
  lemma {:induction false} DigitsLength(n: nat, k: nat)
    requires 1 <= k && n < Pow10(k)
    ensures |Digits(n)| <= k
  {
    if n >= 10 {
      DigitsLength(n / 10, k - 1);
    }
  }

  lemma {:induction false} Pow10Add(a: nat, b: nat)
    ensures Pow10(a + b) == Pow10(a) * Pow10(b)
  {
    if a > 0 {
      Pow10Add(a - 1, b);
    }
  }

  /** A number of magnitude below `10^k` takes at most `k` digits and a sign. */
  lemma DecimalLength(n: int, k: nat)
    requires 1 <= k && -(Pow10(k) as int) < n < Pow10(k)
    ensures |Decimal(n)| <= k + 1
  {
    DigitsLength(if n < 0 then -n else n, k);
  }

  /** Signed decimal: a minus sign for negative values, then the digits of the magnitude. */
  function Decimal(n: int): (r: CString)
    ensures |r| >= 1
    ensures (r[0] == '-') == (n < 0)
    ensures forall i :: (if n < 0 then 1 else 0) <= i < |r| ==> '0' <= r[i] <= '9'
  {
    if n < 0 then "-" + Digits(-n) else Digits(n)
  }

  function ParseDigits(s: string): nat
    requires forall i :: 0 <= i < |s| ==> '0' <= s[i] <= '9'
  {
    if s == [] then 0 else 10 * ParseDigits(s[..|s| - 1]) + DigitValue(s[|s| - 1])
  }

  /** A decimal reader: an optional minus sign, then digits. */
  function ParseDecimal(s: string): int
    requires |s| >= 1
    requires forall i :: (if s[0] == '-' then 1 else 0) <= i < |s| ==> '0' <= s[i] <= '9'
  {
    if s[0] == '-' then -(ParseDigits(s[1..]) as int) else ParseDigits(s)
  }

  lemma {:induction false} DigitsRoundTrip(n: nat)
    ensures ParseDigits(Digits(n)) == n
  {
    var r := Digits(n);
    if n >= 10 {
      DigitsRoundTrip(n / 10);
      assert r[..|r| - 1] == Digits(n / 10);
    }
  }

  /** Reading the rendering back gives the number: the rendering is exact. */
  lemma DecimalRoundTrip(n: int)
    ensures ParseDecimal(Decimal(n)) == n
  {
    if n < 0 {
      DigitsRoundTrip(-n);
      assert Decimal(n)[1..] == Digits(-n);
    } else {
      DigitsRoundTrip(n);
    }
  }

  // ---------------------------------------------------------------------------
  // The record header.

  /** Room in `char hdr[256]` for text: one byte is kept for the terminator. */
  const HeaderRoom: nat := 255

  /** "atom <instance> <symbol> " as `snprintf` writes it into the 256-byte header buffer. */
  function Header(instance: int, symbol: CString): (r: CString)
    ensures |r| <= HeaderRoom
    ensures r <= "atom " + Decimal(instance) + " " + symbol + " "
    ensures |"atom " + Decimal(instance) + " " + symbol + " "| <= HeaderRoom ==>
              r == "atom " + Decimal(instance) + " " + symbol + " "
    ensures |"atom " + Decimal(instance) + " " + symbol + " "| > HeaderRoom ==> |r| == HeaderRoom
  {
    var full: CString := "atom " + Decimal(instance) + " " + symbol + " ";
    if |full| <= HeaderRoom then full else full[..HeaderRoom]
  }

  // ---------------------------------------------------------------------------
  // Joining.

  /** The parts separated by commas. */
  function Join(parts: seq<string>): string
  {
    if |parts| == 0 then ""
    else if |parts| == 1 then parts[0]
    else Join(parts[..|parts| - 1]) + "," + parts[|parts| - 1]
  }

  /** Nothing joined yet. */
  lemma JoinNone(open: string, parts: seq<string>)
    ensures open + Join(parts[..0]) == open
  {
    assert parts[..0] == [];
  }

  /** One more part joined on: a comma before every part but the first. */
  lemma JoinStep(open: string, parts: seq<string>, k: nat)
    requires k < |parts|
    ensures open + Join(parts[..k + 1]) == open + Join(parts[..k]) + ((if k == 0 then "" else ",") + parts[k])
  {
    assert parts[..k + 1][..k] == parts[..k];
  }

  /** The parts one after the other. */
  function Concat(parts: seq<string>): string
  {
    if |parts| == 0 then "" else Concat(parts[..|parts| - 1]) + parts[|parts| - 1]
  }

  /** Nothing concatenated yet. */
  lemma ConcatNone(head: string, parts: seq<string>)
    ensures head + Concat(parts[..0]) == head
  {
    assert parts[..0] == [];
  }

  /** One more part concatenated on. */
  lemma ConcatStep(head: string, parts: seq<string>, k: nat)
    requires k < |parts|
    ensures head + Concat(parts[..k + 1]) == head + Concat(parts[..k]) + parts[k]
  {
    assert parts[..k + 1][..k] == parts[..k];
  }
}
