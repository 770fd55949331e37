/**
 The JSON lines of the command stream: SendSignal writes one record and a newline, GetSignal reads up
 to the next newline however the bytes arrive, and decodes the record.
 */
module SignalFraming {
  import opened Wrappers
  import opened ForwardSignals

  // ------------------------------------------------------------------ decimal integers

  predicate IsDigit(c: char) { '0' <= c <= '9' }

  function DigitOf(n: nat): char
    requires n < 10
  {
    '0' + n as char
  }

  function Decimal(n: nat): (s: string)
    ensures s != [] && forall i :: 0 <= i < |s| ==> IsDigit(s[i])
  {
    if n < 10 then [DigitOf(n)] else Decimal(n / 10) + [DigitOf(n % 10)]
  }

  function IntText(i: int): string {
    if i < 0 then "-" + Decimal(-i) else Decimal(i)
  }

  function CountDigits(s: string): (k: nat)
    ensures k <= |s| && forall i :: 0 <= i < k ==> IsDigit(s[i])
    ensures k < |s| ==> !IsDigit(s[k])
  {
    if s == [] || !IsDigit(s[0]) then 0 else 1 + CountDigits(s[1..])
  }

  function DigitValue(c: char): nat
    requires IsDigit(c)
  {
    c as int - '0' as int
  }

  function ValueOf(s: string): nat
    requires forall i :: 0 <= i < |s| ==> IsDigit(s[i])
  {
    if s == [] then 0 else 10 * ValueOf(s[..|s| - 1]) + DigitValue(s[|s| - 1])
  }

  // A JSON integer: no leading zeros (section 6 of RFC 8259). Returns the value and the rest.
  function ParseNat(s: string): Option<(int, string)> {
    var k := CountDigits(s);
    if k == 0 || (k > 1 && s[0] == '0') then None else Some((ValueOf(s[..k]), s[k..]))
  }

  function ParseInt(s: string): Option<(int, string)> {
    if s != [] && s[0] == '-' then
      var r := ParseNat(s[1..]);
      if r.None? then None else Some((-r.value.0, r.value.1))
    else
      ParseNat(s)
  }

  lemma {:induction false} DecimalValue(n: nat)
    ensures ValueOf(Decimal(n)) == n
    ensures |Decimal(n)| > 1 ==> Decimal(n)[0] != '0'
  {
    if n >= 10 {
      DecimalValue(n / 10);
      assert Decimal(n)[..|Decimal(n)| - 1] == Decimal(n / 10);
      DecimalIsZero(n / 10);
    } else {
      assert Decimal(n)[..0] == [];
    }
  }

  lemma DecimalIsZero(n: nat)
    requires n > 0
    ensures |Decimal(n)| == 1 ==> Decimal(n)[0] != '0'
  {
  }

  lemma {:induction false} DigitsStop(d: string, rest: string)
    requires forall i :: 0 <= i < |d| ==> IsDigit(d[i])
    requires rest != [] ==> !IsDigit(rest[0])
    ensures CountDigits(d + rest) == |d|
  {
    if d == [] {
      assert d + rest == rest;
    } else {
      assert (d + rest)[1..] == d[1..] + rest;
      DigitsStop(d[1..], rest);
    }
  }

  lemma NatRoundTrip(n: nat, rest: string)
    requires rest != [] ==> !IsDigit(rest[0])
    ensures ParseNat(Decimal(n) + rest) == Some((n, rest))
  {
    var d := Decimal(n);
    DigitsStop(d, rest);
    DecimalValue(n);
    assert (d + rest)[..|d|] == d && (d + rest)[|d|..] == rest;
  }

  lemma SignedRoundTrip(d: string, n: int, rest: string)
    requires d != [] && IsDigit(d[0]) && ParseNat(d + rest) == Some((n, rest))
    ensures ParseInt(d + rest) == Some((n, rest))
    ensures ParseInt("-" + d + rest) == Some((-n, rest))
  {
    assert (d + rest)[0] == d[0];
    assert ("-" + d + rest)[1..] == d + rest;
  }

  lemma IntRoundTrip(i: int, rest: string)
    requires rest != [] ==> !IsDigit(rest[0])
    ensures ParseInt(IntText(i) + rest) == Some((i, rest))
  {
    var n: nat := if i < 0 then -i else i;
    NatRoundTrip(n, rest);
    SignedRoundTrip(Decimal(n), n, rest);
  }

  // ------------------------------------------------------------------ one record

  const VERSION_KEY := "{\"version\":"
  const TYPE_KEY := ",\"type\":"
  const CODE_KEY := ",\"code\":"

  // A zero code is omitted.
  function Tail(code: int): string {
    if code == 0 then "}" else CODE_KEY + IntText(code) + "}"
  }

  function Print(s: Signal): string {
    VERSION_KEY + (IntText(s.version) + (TYPE_KEY + (IntText(s.kind) + Tail(s.code))))
  }

  function Expect(s: string, key: string): Option<string> {
    if key <= s then Some(s[|key|..]) else None
  }

  function ParseField(s: string, key: string): Option<(int, string)> {
    var r := Expect(s, key);
    if r.None? then None else ParseInt(r.value)
  }

  function Parse(s: string): Option<Signal> {
    var v := ParseField(s, VERSION_KEY);
    if v.None? then None
    else
      var t := ParseField(v.value.1, TYPE_KEY);
      if t.None? then None
      else if t.value.1 == "}" then Some(Signal(v.value.0, t.value.0, 0))
      else
        var c := ParseField(t.value.1, CODE_KEY);
        if c.None? || c.value.1 != "}" then None else Some(Signal(v.value.0, t.value.0, c.value.0))
  }

  lemma FieldRoundTrip(key: string, i: int, rest: string)
    requires rest != [] ==> !IsDigit(rest[0])
    ensures ParseField(key + (IntText(i) + rest), key) == Some((i, rest))
  {
    assert (key + (IntText(i) + rest))[|key|..] == IntText(i) + rest;
    IntRoundTrip(i, rest);
  }

  /** Decoding undoes encoding, for every signal. */
  lemma SignalRoundTrip(s: Signal)
    ensures Parse(Print(s)) == Some(s)
  {
    var rest := TYPE_KEY + (IntText(s.kind) + Tail(s.code));
    FieldRoundTrip(VERSION_KEY, s.version, rest);
    FieldRoundTrip(TYPE_KEY, s.kind, Tail(s.code));
    if s.code != 0 {
      assert Tail(s.code) == CODE_KEY + (IntText(s.code) + "}");
      FieldRoundTrip(CODE_KEY, s.code, "}");
    }
  }

  // ------------------------------------------------------------------ what is no record

  // A text of this integer: the one written, or a negative zero.
  predicate IsIntText(text: string, i: int) { text == IntText(i) || (i == 0 && text == "-0") }

  predicate IsNumeral(s: string) {
    && s != [] && (forall i :: 0 <= i < |s| ==> IsDigit(s[i]))
    && (|s| > 1 ==> s[0] != '0')
  }

  // Digits without a leading zero are what is written for their value.
  lemma {:induction false} NumeralIsDecimal(s: string)
    requires IsNumeral(s)
    ensures Decimal(ValueOf(s)) == s && (s[0] != '0' ==> ValueOf(s) > 0)
    decreases |s|
  {
    var k, c := |s| - 1, s[|s| - 1];
    assert s == s[..k] + [c];
    assert DigitOf(DigitValue(c)) == c && DigitValue(c) < 10;
    if k == 0 {
      assert s[..0] == [];
    } else {
      assert IsNumeral(s[..k]) && s[..k][0] == s[0];
      NumeralIsDecimal(s[..k]);
      assert ValueOf(s) == 10 * ValueOf(s[..k]) + DigitValue(c);
    }
  }

  lemma ParsedNat(s: string)
    ensures var r := ParseNat(s); r.Some? ==> r.value.0 >= 0 && s == Decimal(r.value.0) + r.value.1
  {
    var k := CountDigits(s);
    if k > 0 && !(k > 1 && s[0] == '0') {
      assert s[..k][0] == s[0];
      NumeralIsDecimal(s[..k]);
      assert s == s[..k] + s[k..];
    }
  }

  lemma ParsedInt(s: string) returns (text: string)
    ensures var r := ParseInt(s); r.Some? ==> IsIntText(text, r.value.0) && s == text + r.value.1
  {
    text := "";
    if s != [] && s[0] == '-' {
      ParsedNat(s[1..]);
      var r := ParseNat(s[1..]);
      if r.Some? {
        text := "-" + Decimal(r.value.0);
        assert s == "-" + s[1..] && "-" + (Decimal(r.value.0) + r.value.1) == text + r.value.1;
        assert r.value.0 == 0 ==> Decimal(0) == "0" && "-" + "0" == "-0";
      }
    } else {
      ParsedNat(s);
      if ParseNat(s).Some? {
        text := Decimal(ParseNat(s).value.0);
      }
    }
  }

  lemma ParsedField(s: string, key: string) returns (text: string)
    ensures var r := ParseField(s, key); r.Some? ==> IsIntText(text, r.value.0) && s == key + (text + r.value.1)
  {
    text := "";
    if key <= s {
      text := ParsedInt(s[|key|..]);
      assert s == key + s[|key|..];
    }
  }

  /** Nothing else is a record: a line that decodes is the version, type and code keys in this order, each with
      its integer, and the closing brace; the code may be left out, and counts as zero then. */
  lemma OnlyRecordsDecode(s: string) returns (v: string, t: string, c: string)
    ensures Parse(s).Some? ==>
              var sig := Parse(s).value;
              && IsIntText(v, sig.version) && IsIntText(t, sig.kind)
              && ((sig.code == 0 && s == VERSION_KEY + (v + (TYPE_KEY + (t + "}"))))
                  || (IsIntText(c, sig.code) && s == VERSION_KEY + (v + (TYPE_KEY + (t + (CODE_KEY + (c + "}")))))))
  {
    hide ParseInt, IsIntText, ParseField;
    v := ParsedField(s, VERSION_KEY);
    t, c := "", "";
    if ParseField(s, VERSION_KEY).Some? {
      var rest := ParseField(s, VERSION_KEY).value.1;
      t := ParsedField(rest, TYPE_KEY);
      if ParseField(rest, TYPE_KEY).Some? {
        c := ParsedField(ParseField(rest, TYPE_KEY).value.1, CODE_KEY);
      }
    }
  }

  predicate OneLine(s: string) { '\n' !in s }

  lemma NoNewlineInside(s: Signal)
    ensures OneLine(Print(s))
  {
    assert forall i: int :: OneLine(IntText(i));
    assert OneLine(VERSION_KEY) && OneLine(TYPE_KEY) && OneLine(CODE_KEY);
    assert OneLine(Tail(s.code));
  }

  // ------------------------------------------------------------------ lines

  // The position of the first newline, or the length.
  function LineEnd(s: string): (k: nat)
    ensures k <= |s| && OneLine(s[..k]) && (k < |s| ==> s[k] == '\n')
  {
    if s == [] || s[0] == '\n' then 0 else 1 + LineEnd(s[1..])
  }

  // The complete lines of a stream.
  function Lines(s: string): seq<string>
    decreases |s|
  {
    var k := LineEnd(s);
    if k == |s| then [] else [s[..k]] + Lines(s[k + 1..])
  }

  function Unlines(ls: seq<string>): string {
    if ls == [] then "" else ls[0] + "\n" + Unlines(ls[1..])
  }

  lemma {:induction false} LineStops(l: string, rest: string)
    requires OneLine(l)
    ensures LineEnd(l) == |l|
    ensures LineEnd(l + "\n" + rest) == |l|
  {
    if l == [] {
      assert l + "\n" + rest == "\n" + rest;
    } else {
      assert (l + "\n" + rest)[1..] == l[1..] + "\n" + rest;
      LineStops(l[1..], rest);
    }
  }

  lemma FirstLine(l: string, rest: string)
    requires OneLine(l)
    ensures Lines(l + "\n" + rest) == [l] + Lines(rest)
  {
    var all := l + "\n" + rest;
    LineStops(l, rest);
    assert all[..|l|] == l && all[|l| + 1..] == rest;
  }

  lemma CutInFirstLine(l: string, rest: string, cut: nat)
    requires OneLine(l) && cut <= |l|
    ensures Lines((l + "\n" + rest)[..cut]) == []
  {
    assert (l + "\n" + rest)[..cut] == l[..cut];
    LineStops(l[..cut], "");
  }

  lemma CutAfterFirstLine(l: string, rest: string, cut: nat)
    requires OneLine(l) && |l| < cut <= |l| + 1 + |rest|
    ensures Lines((l + "\n" + rest)[..cut]) == [l] + Lines(rest[..cut - |l| - 1])
  {
    assert (l + "\n" + rest)[..cut] == l + "\n" + rest[..cut - |l| - 1];
    FirstLine(l, rest[..cut - |l| - 1]);
  }

  // Any prefix of a stream of lines has a prefix of the lines; a line cut short is not one of them.
  lemma {:induction false} LinesRoundTrip(ls: seq<string>, cut: nat)
    requires cut <= |Unlines(ls)| && forall l :: l in ls ==> OneLine(l)
    ensures Lines(Unlines(ls)) == ls
    ensures Lines(Unlines(ls)[..cut]) <= ls
  {
    if ls != [] {
      hide Lines, LineEnd;
      var l, rest := ls[0], Unlines(ls[1..]);
      LinesRoundTrip(ls[1..], if cut <= |l| then 0 else cut - |l| - 1);
      FirstLine(l, rest);
      if cut <= |l| {
        CutInFirstLine(l, rest, cut);
      } else {
        CutAfterFirstLine(l, rest, cut);
      }
    }
  }

  // ------------------------------------------------------------------ a stream of records

  function Texts(sigs: seq<Signal>): seq<string> {
    if sigs == [] then [] else [Print(sigs[0])] + Texts(sigs[1..])
  }

  function Encode(sigs: seq<Signal>): string { Unlines(Texts(sigs)) }

  // The records up to the first bad one.
  function ParseAll(ls: seq<string>): seq<Signal> {
    if ls == [] || Parse(ls[0]).None? then [] else [Parse(ls[0]).value] + ParseAll(ls[1..])
  }

  lemma EncodeRest(sigs: seq<Signal>, i: nat)
    requires i < |sigs|
    ensures Encode(sigs[i..]) == (Print(sigs[i]) + "\n") + Encode(sigs[i + 1..])
  {
    var rest := sigs[i..];
    assert rest[1..] == sigs[i + 1..];
    assert Texts(rest)[1..] == Texts(rest[1..]);
  }

  // What repeated GetSignal makes of a stream.
  function Decode(s: string): seq<Signal> { ParseAll(Lines(s)) }

  lemma {:induction false} TextsAreLines(sigs: seq<Signal>)
    ensures forall l :: l in Texts(sigs) ==> OneLine(l)
  {
    hide Print;
    if sigs != [] {
      NoNewlineInside(sigs[0]);
      TextsAreLines(sigs[1..]);
    }
  }

  lemma {:induction false} TextsRoundTrip(sigs: seq<Signal>, ls: seq<string>)
    requires ls <= Texts(sigs)
    ensures ParseAll(ls) <= sigs
    ensures ls == Texts(sigs) ==> ParseAll(ls) == sigs
  {
    hide Parse, Print;
    if ls != [] {
      assert ls[0] == Print(sigs[0]) && ls[1..] <= Texts(sigs[1..]);
      SignalRoundTrip(sigs[0]);
      TextsRoundTrip(sigs[1..], ls[1..]);
      assert sigs == [sigs[0]] + sigs[1..];
      assert ls == [ls[0]] + ls[1..];
    }
  }

  /** Everything sent decodes to the signals sent, and any prefix of it to a prefix of them. */
  lemma StreamRoundTrip(sigs: seq<Signal>, cut: nat)
    requires cut <= |Encode(sigs)|
    ensures Decode(Encode(sigs)) == sigs
    ensures Decode(Encode(sigs)[..cut]) <= sigs
  {
    var ls := Texts(sigs);
    TextsAreLines(sigs);
    TextsRoundTrip(sigs, ls);
    LinesRoundTrip(ls, cut);
    TextsRoundTrip(sigs, Lines(Unlines(ls)[..cut]));
  }

  // ------------------------------------------------------------------ the dealer

  function Join(chunks: seq<string>): string {
    if chunks == [] then "" else chunks[0] + Join(chunks[1..])
  }

  // The two buffered ends of one stream: what is still to arrive comes in chunks of any size.
  class SignalDealer {
    var buffered: string
    var arriving: seq<string>
    var written: string

    function Remaining(): string
      reads this
    {
      buffered + Join(arriving)
    }

    constructor (arriving: seq<string>)
      ensures Remaining() == Join(arriving) && written == ""
    {
      this.arriving := arriving;
      buffered, written := "", "";
    }

    // Reads up to and including the next newline; without one, takes everything and reports the end.
    method ReadBytes() returns (line: string, ended: bool)
      modifies this`buffered, this`arriving
      ensures var lines := Lines(old(Remaining()));
              if lines != [] then
                !ended && line == lines[0] + "\n" && Lines(Remaining()) == lines[1..] && old(Remaining()) == line + Remaining()
              else
                ended && line == old(Remaining()) && Remaining() == ""
    {
      ghost var all := Remaining();
      var k := LineEnd(buffered);
      while k == |buffered| && arriving != []
        invariant Remaining() == all && k == LineEnd(buffered)
        decreases |arriving|
      {
        assert buffered + Join(arriving) == (buffered + arriving[0]) + Join(arriving[1..]);
        buffered := buffered + arriving[0];
        arriving := arriving[1..];
        k := LineEnd(buffered);
      }
      if k == |buffered| {
        assert all == buffered;
        line, ended := buffered, true;
        buffered := "";
      } else {
        ghost var tail := buffered[k + 1..] + Join(arriving);
        assert all == buffered[..k] + "\n" + tail;
        FirstLine(buffered[..k], tail);
        line, ended := buffered[..k + 1], false;
        buffered := buffered[k + 1..];
      }
    }

    method GetSignal() returns (sig: Option<Signal>)
      modifies this`buffered, this`arriving
      ensures var lines := Lines(old(Remaining()));
              if lines == [] then sig.None?
              else sig == Parse(lines[0]) && Lines(Remaining()) == lines[1..]
    {
      var line, ended := ReadBytes();
      if ended {
        return None;
      }
      assert line[..|line| - 1] == Lines(old(Remaining()))[0];
      sig := Parse(line[..|line| - 1]);
    }

    method SendSignal(sig: Signal)
      modifies this`written
      ensures written == old(written) + (Print(sig) + "\n")
    {
      written := written + (Print(sig) + "\n");
    }

    // The command reader: hands on signals until the stream ends or a record is bad.
    method ReadCommands() returns (sigs: seq<Signal>)
      modifies this`buffered, this`arriving
      ensures sigs == Decode(old(Remaining()))
    {
      hide Parse, Lines;
      sigs := [];
      ghost var all := Lines(Remaining());
      ghost var left := all;
      var next := GetSignal();
      while next.Some?
        invariant ParseAll(all) == sigs + ParseAll(left)
        invariant if left == [] then next.None? else next == Parse(left[0]) && Lines(Remaining()) == left[1..]
        decreases |left|
      {
        sigs := sigs + [next.value];
        left := left[1..];
        next := GetSignal();
      }
    }
  }

  method SendAll(sender: SignalDealer, sigs: seq<Signal>)
    modifies sender`written
    ensures sender.written == old(sender.written) + Encode(sigs)
  {
    hide Encode, Print;
    ghost var all := old(sender.written) + Encode(sigs);
    assert sigs[0..] == sigs;
    for i := 0 to |sigs|
      invariant sender.written + Encode(sigs[i..]) == all
    {
      SendingMoves(sender.written, sigs, i);
      sender.SendSignal(sigs[i]);
    }
    assert sigs[|sigs|..] == [];
    NothingLeft(sender.written);
  }

  lemma SendingMoves(before: string, sigs: seq<Signal>, i: nat)
    requires i < |sigs|
    ensures before + Encode(sigs[i..]) == (before + (Print(sigs[i]) + "\n")) + Encode(sigs[i + 1..])
  {
    EncodeRest(sigs, i);
    hide Encode, Print;
    var line, rest := Print(sigs[i]) + "\n", Encode(sigs[i + 1..]);
    assert before + (line + rest) == (before + line) + rest;
  }

  lemma NothingLeft(written: string)
    ensures written + Encode([]) == written
  {
  }

  /** One dealer sends the signals one by one, the other reads them back, however the stream between
      them is cut into chunks. */
  method Exchange(sigs: seq<Signal>, sender: SignalDealer, receiver: SignalDealer) returns (got: seq<Signal>)
    requires sender != receiver && sender.written == "" && receiver.Remaining() == Encode(sigs)
    modifies sender, receiver
    ensures sender.written == Encode(sigs)
    ensures got == sigs
  {
    SendAll(sender, sigs);
    assert sender.written == Encode(sigs);
    got := receiver.ReadCommands();
    StreamRoundTrip(sigs, 0);
  }
}
