/** The .tix file of program coverage: writing and reading it (rts/Hpc.c). */
module Hpc {
  import opened Options

  const WORD64 := 0x1_0000_0000_0000_0000
  const WORD32 := 0x1_0000_0000
  const MAX_NAME := 255   // expectString reads into a buffer of 256 characters

  /** What the file says of a module; `ticks` has as many elements as the module has ticks. */
  datatype HpcModule = HpcModule(name: string, hashNo: nat, ticks: seq<nat>)

  /** The name is a C string, and the numbers fit their types. */
  predicate ModuleOk(m: HpcModule) {
    && (forall i | 0 <= i < |m.name| :: m.name[i] != '\0')
    && m.hashNo < WORD32 && |m.ticks| < WORD32 && forall i | 0 <= i < |m.ticks| :: m.ticks[i] < WORD64
  }

  // ----- Numbers -----

  function Digit(n: nat): (c: char)
    requires n < 10
    ensures IsDigit(c) && DigitValue(c) == n
  {
    (('0' as int) + n) as char
  }

  predicate IsDigit(c: char) { '0' <= c <= '9' }

  function DigitValue(c: char): nat
    requires IsDigit(c)
  {
    c as int - '0' as int
  }

  /** %u */
  function Decimal(n: nat): (s: string)
    ensures s != [] && forall i | 0 <= i < |s| :: IsDigit(s[i])
  {
    if n < 10 then [Digit(n)] else Decimal(n / 10) + [Digit(n % 10)]
  }

  /** The value of a word with one more digit. */
  function OneMore(acc: nat, d: char): nat
    requires IsDigit(d)
  {
    (acc * 10 + DigitValue(d)) % WORD64
  }

  /** The value of some digits, after `acc`, in a 64-bit word. */
  function Number(s: string, acc: nat): nat
    requires forall i | 0 <= i < |s| :: IsDigit(s[i])
  {
    if s == [] then acc else Number(s[1..], OneMore(acc, s[0]))
  }

  lemma {:induction false} NumberAppend(s: string, d: char, acc: nat)
    requires (forall i | 0 <= i < |s| :: IsDigit(s[i])) && IsDigit(d)
    ensures Number(s + [d], acc) == (Number(s, acc) * 10 + DigitValue(d)) % WORD64
    decreases |s|
  {
    if s == [] {
      assert (s + [d])[1..] == [];
    } else {
      assert (s + [d])[1..] == s[1..] + [d];
      NumberAppend(s[1..], d, (acc * 10 + DigitValue(s[0])) % WORD64);
    }
  }

  /** Reading a number inverts printing it. */
  lemma {:induction false} NumberDecimal(n: nat)
    requires n < WORD64
    ensures Number(Decimal(n), 0) == n
    decreases n
  {
    if n >= 10 {
      NumberDecimal(n / 10);
      NumberAppend(Decimal(n / 10), Digit(n % 10), 0);
    } else {
      assert Decimal(n)[1..] == [];
    }
  }

  // ----- Writing -----

  function PrintTicks(ticks: seq<nat>): string {
    if ticks == [] then "" else if |ticks| == 1 then Decimal(ticks[0])
        else Decimal(ticks[0]) + "," + PrintTicks(ticks[1..])
  }

  function PrintModule(m: HpcModule): string {
    " TixModule \"" + m.name + "\" " + Decimal(m.hashNo) + " " + Decimal(|m.ticks|) + " [" + PrintTicks(m.ticks) + "]"
  }

  function PrintModules(ms: seq<HpcModule>): string {
    if ms == [] then "" else if |ms| == 1 then PrintModule(ms[0]) else PrintModule(ms[0]) + "," + PrintModules(ms[1..])
  }

  function PrintTix(ms: seq<HpcModule>): string {
    "Tix [" + PrintModules(ms) + "]\n"
  }

  /** The format, by example. */
  lemma TixExample()
    ensures PrintTix([HpcModule("Main", 57, [1, 20]), HpcModule("B", 0, [])])
            == "Tix [" + (" TixModule \"Main\" 57 2 [1,20]" + "," + " TixModule \"B\" 0 0 []") + "]\n"
  {
    hide PrintModule;
    var m, b := HpcModule("Main", 57, [1, 20]), HpcModule("B", 0, []);
    ModulesExample();
    assert [m, b][1..] == [b] && PrintModules([b]) == PrintModule(b);
    assert PrintModules([m, b]) == PrintModule(m) + "," + PrintModule(b);
  }

  lemma ModulesExample()
    ensures PrintModule(HpcModule("Main", 57, [1, 20])) == " TixModule \"Main\" 57 2 [1,20]"
    ensures PrintModule(HpcModule("B", 0, [])) == " TixModule \"B\" 0 0 []"
  {
    hide Decimal, PrintTicks;
    NumbersExample();
    TicksExample();
  }

  lemma TicksExample()
    ensures PrintTicks([1, 20]) == "1,20" && PrintTicks([]) == ""
  {
    hide Decimal;
    NumbersExample();
    assert [1, 20][1..] == [20] && PrintTicks([20]) == "20";
  }

  lemma NumbersExample()
    ensures Decimal(0) == "0" && Decimal(1) == "1" && Decimal(2) == "2" && Decimal(20) == "20" && Decimal(57) == "57"
  {
    assert Decimal(5) == "5" && Decimal(57) == Decimal(5) + "7" && Decimal(20) == Decimal(2) + "0";
  }

  // ----- Reading -----

  /** What is read and what is left; or an unexpected character; or a string that does not fit, for which the source
      does not say what happens. */
  datatype Parsed<T> = Ok(value: T, rest: string) | Failure | TooLong

  function Expect(c: char, s: string): Parsed<()> {
    if s != [] && s[0] == c then Ok((), s[1..]) else Failure
  }

  function ExpectAll(cs: string, s: string): Parsed<()> {
    if cs == [] then Ok((), s) else if s != [] && s[0] == cs[0] then ExpectAll(cs[1..], s[1..]) else Failure
  }

  function Ws(s: string): (r: string)
    ensures |r| <= |s| && (r == [] || r[0] != ' ')
  {
    if s != [] && s[0] == ' ' then Ws(s[1..]) else s
  }

  /** How many digits come first. */
  function Digits(s: string): (n: nat)
    ensures n <= |s| && (forall i | 0 <= i < n :: IsDigit(s[i])) && (n < |s| ==> !IsDigit(s[n]))
  {
    if s != [] && IsDigit(s[0]) then 1 + Digits(s[1..]) else 0
  }

  /** expectWord64: no digits are 0. */
  function Word64(s: string): nat { Number(s[..Digits(s)], 0) }
  function AfterWord(s: string): string { s[Digits(s)..] }

  /** The same from digit `k` on. */
  ghost function WordFrom(s: string, k: nat, acc: nat): nat
    requires k <= Digits(s)
  {
    Number(s[..Digits(s)][k..], acc)
  }

  lemma WordStarts(s: string)
    ensures WordFrom(s, 0, 0) == Word64(s) && s[0..] == s
  {
    assert s[..Digits(s)][0..] == s[..Digits(s)];
  }

  lemma WordStep(s: string, k: nat, acc: nat)
    requires k <= Digits(s) && k < |s| && IsDigit(s[k])
    ensures k < Digits(s) && WordFrom(s, k, acc) == WordFrom(s, k + 1, OneMore(acc, s[k]))
    ensures s[k..][0] == s[k] && s[k..][1..] == s[k + 1..]
  {
    hide OneMore;
    assert s[..Digits(s)][k..][1..] == s[..Digits(s)][k + 1..];
  }

  lemma WordEnds(s: string, k: nat, acc: nat)
    requires k <= Digits(s) && (k < |s| ==> !IsDigit(s[k]))
    ensures k == Digits(s) && WordFrom(s, k, acc) == acc && s[k..] == AfterWord(s)
  {
    assert s[..Digits(s)][Digits(s)..] == "";
  }

  /** How many characters come before a quotation mark. */
  function Unquoted(s: string): (n: nat)
    ensures n <= |s| && (forall i | 0 <= i < n :: s[i] != '"') && (n < |s| ==> s[n] == '"')
  {
    if s != [] && s[0] != '"' then 1 + Unquoted(s[1..]) else 0
  }

  /** expectString: at the end of the file the source reads on for ever. */
  function ParseString(s: string): Parsed<string> {
    if s == [] || s[0] != '"' then Failure
    else
      var t := s[1..];
      var n := Unquoted(t);
      if n > MAX_NAME || n == |t| then TooLong else Ok(CString(t[..n]), t[n + 1..])
  }

  /** The string up to a NUL, which strcpy stops at. */
  function CString(s: string): string {
    if s == [] || s[0] == '\0' then "" else [s[0]] + CString(s[1..])
  }

  function Comma(s: string): string {
    if s != [] && s[0] == ',' then Ws(s[1..]) else s
  }

  /** `n` ticks, and what is left. */
  function ParseTicks(n: nat, s: string): (seq<nat>, string) {
    if n == 0 then ([], s)
    else
      var (later, rest) := ParseTicks(n - 1, Comma(Ws(AfterWord(s))));
      ([Word64(s)] + later, rest)
  }

  function ParseModule(s: string): Parsed<HpcModule> {
    match ExpectAll("TixModule", s)
    case Failure => Failure
    case TooLong => TooLong
    case Ok(_, s1) =>
      match ParseString(Ws(s1))
      case Failure => Failure
      case TooLong => TooLong
      case Ok(name, s2) => ParseRest(name, s2)
  }

  /** What follows the name of a module. */
  function ParseRest(name: string, s: string): (r: Parsed<HpcModule>)
    ensures r.Ok? ==> r.value.name == name
  {
    var s3 := Ws(s);
    var s4 := Ws(AfterWord(s3));
    match Expect('[', Ws(AfterWord(s4)))
    case Failure => Failure
    case TooLong => TooLong
    case Ok(_, s5) =>
      var (ticks, s6) := ParseTicks(Word64(s4) % WORD32, Ws(s5));
      match Expect(']', s6)
      case Failure => Failure
      case TooLong => TooLong
      case Ok(_, s7) => Ok(HpcModule(name, Word64(s3) % WORD32, ticks), Ws(s7))
  }

  lemma {:induction false} TicksShrink(n: nat, s: string)
    ensures |ParseTicks(n, s).1| <= |s|
    decreases n
  {
    if n > 0 {
      TicksShrink(n - 1, Comma(Ws(AfterWord(s))));
    }
  }

  lemma ModuleShrinks(s: string)
    ensures ParseModule(s).Ok? ==> |ParseModule(s).rest| < |s|
  {
    if ParseModule(s).Ok? {
      AllShrinks("TixModule", s);
      var s1 := ExpectAll("TixModule", s).rest;
      var s2 := ParseString(Ws(s1)).rest;
      var s4 := Ws(AfterWord(Ws(s2)));
      var s5 := Expect('[', Ws(AfterWord(s4))).rest;
      TicksShrink(Word64(s4) % WORD32, Ws(s5));
    }
  }

  lemma {:induction false} AllShrinks(cs: string, s: string)
    ensures ExpectAll(cs, s).Ok? ==> |ExpectAll(cs, s).rest| == |s| - |cs|
    ensures ExpectAll(cs, s) != TooLong
    decreases |cs|
  {
    if cs != [] && s != [] {
      AllShrinks(cs[1..], s[1..]);
    }
  }

  /** The modules up to the closing bracket. */
  function ParseModules(s: string): (r: Parsed<seq<HpcModule>>)
    ensures r.Ok? ==> r.rest != [] && r.rest[0] == ']'
    decreases |s|
  {
    if s != [] && s[0] == ']' then Ok([], s)
    else
      match ParseModule(s)
      case Failure => Failure
      case TooLong => TooLong
      case Ok(m, rest) =>
        ModuleShrinks(s);
        Cons(m, ParseModules(Comma(rest)))
  }

  function Cons(m: HpcModule, r: Parsed<seq<HpcModule>>): Parsed<seq<HpcModule>> {
    match r
    case Failure => Failure
    case TooLong => TooLong
    case Ok(ms, rest) => Ok([m] + ms, rest)
  }

  function ParseTix(s: string): Parsed<seq<HpcModule>> {
    match ExpectAll("Tix", Ws(s))
    case Failure => Failure
    case TooLong => TooLong
    case Ok(_, s1) =>
      match Expect('[', Ws(s1))
      case Failure => Failure
      case TooLong => TooLong
      case Ok(_, s2) =>
        match ParseModules(Ws(s2))
        case Failure => Failure
        case TooLong => TooLong
        case Ok(ms, s3) => Ok(ms, s3[1..])
  }

  // ----- What is accepted -----

  predicate Blank(s: string) { forall i | 0 <= i < |s| :: s[i] == ' ' }
  predicate AllDigits(s: string) { forall i | 0 <= i < |s| :: IsDigit(s[i]) }

  lemma {:induction false} WsSplits(s: string) returns (b: string)
    ensures s == b + Ws(s) && Blank(b)
    decreases |s|
  {
    b := "";
    if s != [] && s[0] == ' ' {
      var b' := WsSplits(s[1..]);
      b := [' '] + b';
    }
  }

  lemma {:induction false} ExpectAllIs(cs: string, s: string)
    ensures ExpectAll(cs, s) == if cs <= s then Ok((), s[|cs|..]) else Failure
    decreases |cs|
  {
    if cs != [] && s != [] && cs[0] == s[0] {
      ExpectAllIs(cs[1..], s[1..]);
      assert cs <= s <==> cs[1..] <= s[1..];
    }
  }

  /** Ticks are read from left to right. */
  lemma {:induction false} TicksSplit(n: nat, s: string) returns (body: string)
    ensures s == body + ParseTicks(n, s).1 && |ParseTicks(n, s).0| == n
    decreases n
  {
    hide Ws, Comma, Word64, AfterWord;
    body := "";
    if n > 0 {
      var d := WordSplits(s);
      var w := AfterWord(s);
      var b := WsSplits(w);
      var c := CommaSplits(Ws(w));
      var more := TicksSplit(n - 1, Comma(Ws(w)));
      body := d + (b + (c + more));
      Regroup(d, b, c, more, ParseTicks(n, s).1);
    }
  }

  lemma Regroup(d: string, b: string, c: string, more: string, rest: string)
    ensures (d + (b + (c + more))) + rest == d + (b + (c + (more + rest)))
  {
    assert ((b + (c + more)) + rest) == b + (c + (more + rest)) by { assert (c + more) + rest == c + (more + rest); }
  }

  lemma CommaSplits(s: string) returns (c: string)
    ensures s == c + Comma(s)
  {
    c := "";
    if s != [] && s[0] == ',' {
      var b := WsSplits(s[1..]);
      c := [','] + b;
    }
  }

  lemma WordSplits(s: string) returns (d: string)
    ensures s == d + AfterWord(s) && AllDigits(d) && Word64(s) == Number(d, 0)
  {
    d := s[..Digits(s)];
  }

  /** Whatever is accepted as a module has the shape of one: its name in quotation marks, its hash number, how many
      ticks it has, and that many ticks in brackets. */
  lemma ModuleShape(s: string)
    returns (b1: string, name: string, b2: string, d1: string, b3: string, d2: string, b4: string, body: string,
      b5: string)
    requires ParseModule(s).Ok?
    ensures var m := ParseModule(s).value;
            && m.name == CString(name) && '"' !in name && Blank(b1) && Blank(b2) && Blank(b3) && Blank(b4) && Blank(b5)
            && AllDigits(d1) && m.hashNo == Number(d1, 0) % WORD32
            && AllDigits(d2) && |m.ticks| == Number(d2, 0) % WORD32
            && s == "TixModule" + (b1 + ("\"" + (name + ("\"" + (b2 + (d1 + (b3 + (d2 + (b4
                    + ("[" + (body + ("]" + (b5 + ParseModule(s).rest)))))))))))))
  {
    hide ExpectAll, ParseRest, Ws, Number;
    ExpectAllIs("TixModule", s);
    var s1 := s[9..];
    assert s == "TixModule" + s1;
    b1 := WsSplits(s1);
    Quoted(Ws(s1));
    var t := Ws(s1)[1..];
    name := t[..Unquoted(t)];
    b2, d1, b3, d2, b4, body, b5 := RestShape(CString(name), t[Unquoted(t) + 1..]);
  }

  lemma RestShape(name: string, s: string)
    returns (b2: string, d1: string, b3: string, d2: string, b4: string, body: string, b5: string)
    requires ParseRest(name, s).Ok?
    ensures var m := ParseRest(name, s).value;
            && Blank(b2) && Blank(b3) && Blank(b4) && Blank(b5)
            && AllDigits(d1) && m.hashNo == Number(d1, 0) % WORD32
            && AllDigits(d2) && |m.ticks| == Number(d2, 0) % WORD32
            && s == b2 + (d1 + (b3 + (d2 + (b4 + ("[" + (body + ("]" + (b5 + ParseRest(name, s).rest))))))))
  {
    hide ParseTicks, Ws, Number, Word64, AfterWord;
    var s3 := Ws(s);
    var s4 := Ws(AfterWord(s3));
    var s5 := Ws(AfterWord(s4));
    b2 := WsSplits(s);
    d1 := WordSplits(s3);
    b3 := WsSplits(AfterWord(s3));
    d2 := WordSplits(s4);
    b4 := WsSplits(AfterWord(s4));
    var b := WsSplits(s5[1..]);
    var n := Word64(s4) % WORD32;
    var more := TicksSplit(n, Ws(s5[1..]));
    body := b + more;
    var s6 := ParseTicks(n, Ws(s5[1..])).1;
    b5 := WsSplits(s6[1..]);
    assert s6 == "]" + s6[1..] && s5 == "[" + s5[1..];
    assert b + (more + s6) == body + s6;
  }

  lemma Quoted(s: string)
    requires ParseString(s).Ok?
    ensures var t := s[1..]; var n := Unquoted(t); n < |t| && s == "\"" + (t[..n] + ("\"" + t[n + 1..]))
  {
    hide CString, Unquoted;
    var t := s[1..];
    assert t == t[..Unquoted(t)] + ("\"" + t[Unquoted(t) + 1..]) && s == "\"" + t;
  }

  // ----- Reading back what was written -----

  lemma {:induction false} DigitsOf(ds: string, s: string)
    requires (forall i | 0 <= i < |ds| :: IsDigit(ds[i])) && (s == [] || !IsDigit(s[0]))
    ensures Digits(ds + s) == |ds|
    decreases |ds|
  {
    if ds == [] {
      assert ds + s == s;
    } else {
      assert (ds + s)[1..] == ds[1..] + s;
      DigitsOf(ds[1..], s);
    }
  }

  lemma WordPrinted(n: nat, s: string)
    requires n < WORD64 && (s == [] || !IsDigit(s[0]))
    ensures Word64(Decimal(n) + s) == n && AfterWord(Decimal(n) + s) == s && Ws(Decimal(n) + s) == Decimal(n) + s
  {
    hide Decimal, Number, Digits;
    DigitsOf(Decimal(n), s);
    assert (Decimal(n) + s)[..|Decimal(n)|] == Decimal(n) && (Decimal(n) + s)[|Decimal(n)|..] == s;
    NumberDecimal(n);
    assert IsDigit((Decimal(n) + s)[0]);
  }

  lemma {:induction false} TicksPrinted(ticks: seq<nat>, s: string)
    requires (forall i | 0 <= i < |ticks| :: ticks[i] < WORD64) && s != [] && s[0] == ']'
    ensures ParseTicks(|ticks|, PrintTicks(ticks) + s) == (ticks, s)
    ensures Ws(PrintTicks(ticks) + s) == PrintTicks(ticks) + s
    decreases |ticks|
  {
    hide Word64, AfterWord, Decimal;
    if ticks == [] {
      assert PrintTicks(ticks) + s == s;
    } else if |ticks| == 1 {
      WordPrinted(ticks[0], s);
      assert ParseTicks(0, s) == ([], s) && [ticks[0]] + [] == ticks;
    } else {
      var later := PrintTicks(ticks[1..]) + s;
      assert PrintTicks(ticks) + s == Decimal(ticks[0]) + ("," + later);
      WordPrinted(ticks[0], "," + later);
      TicksPrinted(ticks[1..], s);
      assert ("," + later)[1..] == later;
      assert [ticks[0]] + ticks[1..] == ticks;
    }
  }

  lemma {:induction false} UnquotedOf(name: string, s: string)
    requires (forall i | 0 <= i < |name| :: name[i] != '"') && s != [] && s[0] == '"'
    ensures Unquoted(name + s) == |name|
    decreases |name|
  {
    if name == [] {
      assert name + s == s;
    } else {
      assert (name + s)[1..] == name[1..] + s;
      UnquotedOf(name[1..], s);
    }
  }

  lemma {:induction false} CStringOf(s: string)
    requires forall i | 0 <= i < |s| :: s[i] != '\0'
    ensures CString(s) == s
    decreases |s|
  {
    if s != [] {
      CStringOf(s[1..]);
    }
  }

  /** expectString gives back a printed name exactly if it has no quotation mark and fits the buffer. */
  lemma NamePrinted(name: string, s: string)
    requires forall i | 0 <= i < |name| :: name[i] != '\0'
    ensures Readable(name) ==> ParseString("\"" + name + "\"" + s) == Ok(name, s)
    ensures var r := ParseString("\"" + name + "\"" + s); r.Ok? && r.value == name ==> Readable(name)
  {
    var t := name + ("\"" + s);
    assert ("\"" + name + "\"" + s)[1..] == t;
    if Readable(name) {
      UnquotedOf(name, "\"" + s);
      CStringOf(name);
      assert t[..|name|] == name && t[|name| + 1..] == s;
    } else {
      CStringShort(t[..Unquoted(t)]);
      if |name| <= MAX_NAME {
        var i :| 0 <= i < |name| && name[i] == '"';
        assert t[i] == '"';
      }
    }
  }

  predicate Readable(name: string) {
    |name| <= MAX_NAME && forall i | 0 <= i < |name| :: name[i] != '"'
  }

  lemma {:induction false} CStringShort(s: string)
    ensures |CString(s)| <= |s|
    decreases |s|
  {
    if s != [] && s[0] != '\0' {
      CStringShort(s[1..]);
    }
  }

  /** The rest of a module line after its name. */
  function PrintRest(m: HpcModule, s: string): string {
    " " + (Decimal(m.hashNo) + (" " + (Decimal(|m.ticks|) + (" [" + (PrintTicks(m.ticks) + ("]" + s))))))
  }

  lemma PrintModuleIs(m: HpcModule, s: string)
    ensures PrintModule(m) + s == " TixModule " + ("\"" + m.name + "\"" + PrintRest(m, s))
  {
    var d, n, t := Decimal(m.hashNo), Decimal(|m.ticks|), PrintTicks(m.ticks);
    hide Decimal, PrintTicks;
    calc {
      PrintModule(m) + s;
      " TixModule \"" + m.name + "\" " + d + " " + n + " [" + t + "]" + s;
      " TixModule \"" + m.name + "\" " + (d + (" " + (n + (" [" + (t + ("]" + s))))));
      { assert " TixModule \"" == " TixModule " + "\"" && "\" " == "\"" + " "; }
      " TixModule " + ("\"" + m.name + "\"" + PrintRest(m, s));
    }
  }

  lemma {:induction false} ExpectAllOf(cs: string, s: string)
    ensures ExpectAll(cs, cs + s) == Ok((), s)
    decreases |cs|
  {
    if cs == [] {
      assert cs + s == s;
    } else {
      assert (cs + s)[1..] == cs[1..] + s;
      ExpectAllOf(cs[1..], s);
    }
  }

  lemma BlankThen(s: string)
    ensures Ws(" " + s) == Ws(s)
  {
    assert (" " + s)[1..] == s;
  }

  /** A module line, from its keyword on. */
  function ModuleText(m: HpcModule, s: string): string {
    "TixModule" + (" " + ("\"" + m.name + "\"" + PrintRest(m, s)))
  }

  lemma NameFirst(m: HpcModule, s: string)
    ensures var text := ModuleText(m, s);
            && ExpectAll("TixModule", text) == Ok((), " " + ("\"" + m.name + "\"" + PrintRest(m, s)))
            && Ws(" " + ("\"" + m.name + "\"" + PrintRest(m, s))) == "\"" + m.name + "\"" + PrintRest(m, s)
  {
    var q := "\"" + m.name + "\"" + PrintRest(m, s);
    ExpectAllOf("TixModule", " " + q);
    BlankThen(q);
    assert q[0] == '"';
  }

  /** Reading the rest of the line. */
  lemma RestPrinted(m: HpcModule, s: string)
    requires ModuleOk(m)
    ensures var s3 := Ws(PrintRest(m, s));
            var s4 := Ws(AfterWord(s3));
            && Word64(s3) == m.hashNo && Word64(s4) == |m.ticks|
            && Expect('[', Ws(AfterWord(s4))) == Ok((), PrintTicks(m.ticks) + ("]" + s))
  {
    hide Decimal, PrintTicks, Word64, AfterWord;
    var t := PrintTicks(m.ticks) + ("]" + s);
    var u := Decimal(|m.ticks|) + (" [" + t);
    WordPrinted(m.hashNo, " " + u);
    WordPrinted(|m.ticks|, " [" + t);
    BlankThen(Decimal(m.hashNo) + (" " + u));
    BlankThen(u);
    assert " [" + t == " " + ("[" + t);
    BlankThen("[" + t);
    assert ("[" + t)[1..] == t;
  }

  lemma ModulePrinted(m: HpcModule, s: string)
    requires ModuleOk(m)
    ensures Readable(m.name) ==> ParseModule(ModuleText(m, s)) == Ok(m, Ws(s))
    ensures var r := ParseModule(ModuleText(m, s)); r.Ok? && r.value == m ==> Readable(m.name)
  {
    hide Decimal, PrintTicks, PrintRest, ModuleText, Readable, ParseString, ParseTicks, Word64, AfterWord, ParseRest;
    NameFirst(m, s);
    NamePrinted(m.name, PrintRest(m, s));
    if Readable(m.name) {
      RestParsed(m, s);
    }
  }

  lemma RestParsed(m: HpcModule, s: string)
    requires ModuleOk(m)
    ensures ParseRest(m.name, PrintRest(m, s)) == Ok(m, Ws(s))
  {
    hide Decimal, PrintTicks, PrintRest, ParseTicks, Word64, AfterWord;
    RestPrinted(m, s);
    TicksPrinted(m.ticks, "]" + s);
    assert ("]" + s)[1..] == s;
    InRange(m);
  }

  lemma InRange(m: HpcModule)
    requires ModuleOk(m)
    ensures |m.ticks| % WORD32 == |m.ticks| && m.hashNo % WORD32 == m.hashNo
  {
  }

  lemma SkipBlank(m: HpcModule, s: string)
    ensures Ws(PrintModule(m) + s) == ModuleText(m, s) && ModuleText(m, s) != [] && ModuleText(m, s)[0] == 'T'
  {
    hide PrintModule, PrintRest;
    PrintModuleIs(m, s);
    var q := "\"" + m.name + "\"" + PrintRest(m, s);
    assert " TixModule " + q == " " + ModuleText(m, s);
    BlankThen(ModuleText(m, s));
  }

  /** Module after module; the closing bracket ends the list. */
  lemma {:induction false} ModulesPrinted(ms: seq<HpcModule>, s: string)
    requires (forall i | 0 <= i < |ms| :: ModuleOk(ms[i])) && s != [] && s[0] == ']'
    ensures (forall i | 0 <= i < |ms| :: Readable(ms[i].name)) ==> ParseModules(Ws(PrintModules(ms) + s)) == Ok(ms, s)
    ensures var r := ParseModules(Ws(PrintModules(ms) + s));
            r.Ok? && r.value == ms ==> forall i | 0 <= i < |ms| :: Readable(ms[i].name)
    decreases |ms|
  {
    hide PrintModule, ParseModule, ModuleText, ModuleOk, Readable, ParseModules, Cons, Comma, Ws;
    if ms == [] {
      assert PrintModules(ms) + s == s;
      NoModules(s);
    } else {
      var later := if |ms| == 1 then s else "," + (PrintModules(ms[1..]) + s);
      assert PrintModules(ms) + s == PrintModule(ms[0]) + later;
      SkipBlank(ms[0], later);
      ModulePrinted(ms[0], later);
      ModulesPrinted(ms[1..], s);
      LaterModules(ms, s, later);
      ModulesStep(ModuleText(ms[0], later));
      ConsFacts(ms, ParseModule(ModuleText(ms[0], later)), s);
      Others(ms);
    }
  }

  lemma LaterModules(ms: seq<HpcModule>, s: string, later: string)
    requires ms != [] && s != [] && s[0] == ']' && later == if |ms| == 1 then s else "," + (PrintModules(ms[1..]) + s)
    ensures Comma(Ws(later)) == Ws(PrintModules(ms[1..]) + s)
  {
    if |ms| == 1 {
      assert PrintModules(ms[1..]) + s == s;
    } else {
      assert later[1..] == PrintModules(ms[1..]) + s;
    }
  }

  lemma NoModules(s: string)
    requires s != [] && s[0] == ']'
    ensures ParseModules(Ws(s)) == Ok([], s)
  {
  }

  lemma ModulesStep(s: string)
    requires s != [] && s[0] == 'T'
    ensures var first := ParseModule(s);
            if first.Ok? then ParseModules(s) == Cons(first.value, ParseModules(Comma(first.rest)))
                else !ParseModules(s).Ok?
  {
    hide ParseModule;
  }

  lemma ConsFacts(ms: seq<HpcModule>, first: Parsed<HpcModule>, s: string)
    requires ms != []
    ensures first == Ok(ms[0], if first.Ok? then first.rest else s) ==> Cons(ms[0], Ok(ms[1..], s)) == Ok(ms, s)
    ensures forall r | first.Ok? && Cons(first.value, r).Ok? && Cons(first.value, r).value == ms ::
              first.value == ms[0] && r.Ok? && r.value == ms[1..]
  {
    assert [ms[0]] + ms[1..] == ms;
    forall r | first.Ok? && Cons(first.value, r).Ok? && Cons(first.value, r).value == ms
      ensures first.value == ms[0] && r.Ok? && r.value == ms[1..]
    {
      assert r.value == ([first.value] + r.value)[1..];
    }
  }

  lemma Others(ms: seq<HpcModule>)
    requires ms != []
    ensures (forall i | 0 <= i < |ms| :: Readable(ms[i].name)) <==>
            Readable(ms[0].name) && forall i | 0 <= i < |ms[1..]| :: Readable(ms[1..][i].name)
  {
    hide Readable;
    if forall i | 0 <= i < |ms[1..]| :: Readable(ms[1..][i].name) {
      forall i | 1 <= i < |ms| ensures Readable(ms[i].name) {
        assert ms[1..][i - 1] == ms[i];
      }
    }
  }

  /** Reading the file back gives exactly the modules that were written if, and only if, the reader can cope with
      their names. */
  lemma TixRoundTrip(ms: seq<HpcModule>)
    requires forall i | 0 <= i < |ms| :: ModuleOk(ms[i])
    ensures ParseTix(PrintTix(ms)) == Ok(ms, "\n") <==> forall i | 0 <= i < |ms| :: Readable(ms[i].name)
  {
    hide PrintModules, ParseModules, ModuleOk, Readable;
    var body := PrintModules(ms) + "]\n";
    assert PrintTix(ms) == "Tix" + (" [" + body);
    ExpectAllOf("Tix", " [" + body);
    assert Ws("Tix" + (" [" + body)) == "Tix" + (" [" + body);
    assert " [" + body == " " + ("[" + body);
    BlankThen("[" + body);
    assert ("[" + body)[1..] == body;
    ModulesPrinted(ms, "]\n");
    assert "]\n"[1..] == "\n";
  }

  /** A module whose name has a quotation mark in it does not come back. */
  lemma QuotedNameIsLost()
    ensures var m := HpcModule("a\"b", 0, []); ModuleOk(m) && ParseTix(PrintTix([m])) != Ok([m], "\n")
  {
    var m := HpcModule("a\"b", 0, []);
    assert m.name[1] == '"';
    TixRoundTrip([m]);
  }

  // ----- The table of modules -----

  type Table = map<string, HpcModule>

  /** A module from the file: a new one is added; the ticks of a registered one are set, unless it is another version of
      the module. (That the file has more ticks than the module is not provided for.) */
  function Merge(t: Table, m: HpcModule): Option<Table> {
    if m.name !in t then Some(t[m.name := m])
    else if m.hashNo != t[m.name].hashNo || |m.ticks| > |t[m.name].ticks| then None
    else Some(t[m.name := t[m.name].(ticks := m.ticks + t[m.name].ticks[|m.ticks|..])])
  }

  /** Another version of a registered module is refused; nothing but the counts of the module changes. */
  lemma MergeMeans(t: Table, m: HpcModule)
    ensures Merge(t, m).None? <==>
              m.name in t && (m.hashNo != t[m.name].hashNo || |m.ticks| > |t[m.name].ticks|)
    ensures Merge(t, m).Some? ==>
              var u := Merge(t, m).value;
              && u.Keys == t.Keys + {m.name} && (forall n | n in t && n != m.name :: u[n] == t[n])
              && u[m.name].hashNo == m.hashNo && m.ticks <= u[m.name].ticks
              && (m.name !in t ==> u[m.name] == m)
              && (m.name in t ==> u[m.name].name == t[m.name].name && |u[m.name].ticks| == |t[m.name].ticks|
                                  && u[m.name].ticks[|m.ticks|..] == t[m.name].ticks[|m.ticks|..])
  {
  }

  function MergeAll(t: Table, ms: seq<HpcModule>): Option<Table>
    decreases |ms|
  {
    if ms == [] then Some(t)
    else match Merge(t, ms[0]) case None => None case Some(t') => MergeAll(t', ms[1..])
  }

  ghost predicate DistinctNames(ms: seq<HpcModule>) {
    forall i, j | 0 <= i < j < |ms| :: ms[i].name != ms[j].name
  }

  /** The module is new, or registered with the same hash number and number of ticks. */
  predicate Fits(t: Table, m: HpcModule) {
    m.name in t ==> t[m.name].hashNo == m.hashNo && |t[m.name].ticks| == |m.ticks| && t[m.name].name == m.name
  }

  /** The counts of an earlier run come back. */
  lemma {:induction false} MergeRestores(t: Table, ms: seq<HpcModule>)
    requires DistinctNames(ms) && forall i | 0 <= i < |ms| :: Fits(t, ms[i])
    ensures MergeAll(t, ms).Some?
    ensures forall i | 0 <= i < |ms| ::
              ms[i].name in MergeAll(t, ms).value && MergeAll(t, ms).value[ms[i].name] == ms[i]
    ensures forall n | n in t && (forall i | 0 <= i < |ms| :: ms[i].name != n) ::
              n in MergeAll(t, ms).value && MergeAll(t, ms).value[n] == t[n]
    decreases |ms|
  {
    if ms != [] {
      var m := ms[0];
      if m.name in t {
        assert m.ticks + t[m.name].ticks[|m.ticks|..] == m.ticks;
      }
      var t' := t[m.name := m];
      assert Merge(t, m) == Some(t');
      forall i | 0 <= i < |ms[1..]| ensures Fits(t', ms[1..][i]) {
        assert ms[1..][i] == ms[i + 1] && Fits(t, ms[i + 1]) && ms[0].name != ms[i + 1].name;
      }
      MergeRestores(t', ms[1..]);
      assert forall i | 1 <= i < |ms| :: ms[1..][i - 1] == ms[i];
    }
  }

  /** Reading what an earlier run wrote sets all the counts as they were then. */
  lemma CountsComeBack(t: Table, ms: seq<HpcModule>)
    requires DistinctNames(ms) && forall i | 0 <= i < |ms| :: ModuleOk(ms[i]) && Readable(ms[i].name) && Fits(t, ms[i])
    ensures ParseTix(PrintTix(ms)).Ok?
    ensures var t' := MergeAll(t, ParseTix(PrintTix(ms)).value);
            t'.Some? && forall i | 0 <= i < |ms| :: ms[i].name in t'.value && t'.value[ms[i].name] == ms[i]
  {
    hide ParseTix, PrintTix, Readable, ModuleOk, Fits;
    TixRoundTrip(ms);
    MergeRestores(t, ms);
  }

  // ----- The writer -----

  method WriteTix(modules: seq<HpcModule>) returns (f: string)
    ensures f == PrintTix(modules)
  {
    hide PrintModule, PrintModules, Later;
    f := "Tix [";
    var outerComma := false;
    var i := 0;
    LaterStarts(modules);
    while i < |modules|
      invariant 0 <= i <= |modules| && outerComma == (i > 0)
      invariant f + Later(modules, i) == "Tix [" + PrintModules(modules)
    {
      LaterIs(modules, i);
      var sep := if outerComma then "," else "";
      outerComma := true;
      var text := WriteModule(modules[i]);
      Append(f, sep, text, Later(modules, i + 1));
      f := f + sep + text;
      i := i + 1;
    }
    LaterEnds(modules);
    f := f + "]\n";
  }

  method WriteModule(m: HpcModule) returns (f: string)
    ensures f == PrintModule(m)
  {
    hide PrintTicks, Decimal;
    var ticks := WriteTicks(m.ticks);
    f := " TixModule \"" + m.name + "\" " + Decimal(m.hashNo) + " " + Decimal(|m.ticks|) + " [" + ticks + "]";
  }

  lemma Append(f: string, sep: string, text: string, later: string)
    ensures f + (sep + (text + later)) == (f + sep + text) + later
  {
  }

  /** What is still to be written of the modules from `i` on. */
  ghost function Later(ms: seq<HpcModule>, i: nat): string
    requires i <= |ms|
  {
    if i == |ms| then "" else if i == 0 then PrintModules(ms) else "," + PrintModules(ms[i..])
  }

  lemma LaterStarts(ms: seq<HpcModule>)
    ensures Later(ms, 0) == PrintModules(ms)
  {
  }

  lemma LaterEnds(ms: seq<HpcModule>)
    ensures Later(ms, |ms|) == "" && ("Tix [" + PrintModules(ms)) + "" == "Tix [" + PrintModules(ms)
  {
  }

  lemma LaterIs(ms: seq<HpcModule>, i: nat)
    requires i < |ms|
    ensures Later(ms, i) == (if i > 0 then "," else "") + (PrintModule(ms[i]) + Later(ms, i + 1))
  {
    hide PrintModule;
    var rest := ms[i..];
    assert rest[1..] == ms[i + 1..] && rest[0] == ms[i] && ms[0..] == ms;
    assert PrintModules(rest) == PrintModule(ms[i]) + Later(ms, i + 1) by {
      if |rest| > 1 {
        Assoc3(PrintModule(ms[i]), ",", PrintModules(ms[i + 1..]));
      }
    }
  }

  lemma Assoc3(a: string, b: string, c: string)
    ensures a + b + c == a + (b + c)
  {
  }

  method WriteTicks(ticks: seq<nat>) returns (f: string)
    ensures f == PrintTicks(ticks)
  {
    hide Decimal, LaterTicks, PrintTicks;
    f := "";
    var i := 0;
    LaterTicksStart(ticks);
    while i < |ticks|
      invariant 0 <= i <= |ticks| && f + LaterTicks(ticks, i) == PrintTicks(ticks)
    {
      LaterTicksIs(ticks, i);
      var sep := if i > 0 then "," else "";
      Append(f, sep, Decimal(ticks[i]), LaterTicks(ticks, i + 1));
      f := f + sep + Decimal(ticks[i]);
      i := i + 1;
    }
  }

  ghost function LaterTicks(ticks: seq<nat>, i: nat): string
    requires i <= |ticks|
  {
    if i == |ticks| then "" else if i == 0 then PrintTicks(ticks) else "," + PrintTicks(ticks[i..])
  }

  lemma LaterTicksStart(ticks: seq<nat>)
    ensures LaterTicks(ticks, 0) == PrintTicks(ticks) && LaterTicks(ticks, |ticks|) == ""
    ensures "" + PrintTicks(ticks) == PrintTicks(ticks)
  {
  }

  lemma LaterTicksIs(ticks: seq<nat>, i: nat)
    requires i < |ticks|
    ensures LaterTicks(ticks, i) == (if i > 0 then "," else "") + (Decimal(ticks[i]) + LaterTicks(ticks, i + 1))
  {
    hide Decimal;
    var rest := ticks[i..];
    assert rest[1..] == ticks[i + 1..] && rest[0] == ticks[i] && ticks[0..] == ticks;
    assert PrintTicks(rest) == Decimal(ticks[i]) + LaterTicks(ticks, i + 1) by {
      if |rest| > 1 {
        Assoc3(Decimal(ticks[i]), ",", PrintTicks(ticks[i + 1..]));
      }
    }
  }

  // ----- The reader -----

  class TixFile {
    const text: string
    var pos: nat   // of tix_ch, the current character

    constructor (text: string)
      ensures this.text == text && pos == 0 && Valid()
    {
      this.text, pos := text, 0;
    }

    ghost predicate Valid()
      reads this
    {
      pos <= |text|
    }

    /** What has not been read. */
    ghost function Rest(): string
      requires Valid()
      reads this
    {
      text[pos..]
    }

    method Next()
      requires Valid() && pos < |text|
      modifies this
      ensures Valid() && Rest() == old(Rest())[1..]
    {
      pos := pos + 1;
    }

    method ReadChar(c: char) returns (ok: bool)
      requires Valid()
      modifies this
      ensures Valid() && ok == Expect(c, old(Rest())).Ok?
      ensures ok ==> Expect(c, old(Rest())) == Ok((), Rest())
    {
      if pos < |text| && text[pos] == c {
        Next();
        return true;
      }
      return false;
    }

    method ReadChars(cs: string) returns (ok: bool)
      requires Valid()
      modifies this
      ensures Valid() && ok == ExpectAll(cs, old(Rest())).Ok?
      ensures ok ==> ExpectAll(cs, old(Rest())) == Ok((), Rest())
    {
      var i := 0;
      assert cs[0..] == cs;
      while i < |cs|
        invariant 0 <= i <= |cs| && Valid() && ExpectAll(cs[i..], Rest()) == ExpectAll(cs, old(Rest()))
      {
        assert cs[i..][1..] == cs[i + 1..];
        ok := ReadChar(cs[i]);
        if !ok {
          return;
        }
        i := i + 1;
      }
      ok := true;
    }

    /** ws */
    method SkipBlanks()
      requires Valid()
      modifies this
      ensures Valid() && Rest() == Ws(old(Rest()))
    {
      while pos < |text| && text[pos] == ' '
        invariant Valid() && Ws(Rest()) == Ws(old(Rest()))
        decreases |text| - pos
      {
        Next();
      }
    }

    method SkipComma()
      requires Valid()
      modifies this
      ensures Valid() && Rest() == Comma(old(Rest()))
    {
      if pos < |text| && text[pos] == ',' {
        Next();
        SkipBlanks();
      }
    }

    /** The loop of expectString: up to a quotation mark, the end of the file, or one character too many. */
    method ReadUnquoted() returns (tmp: string)
      requires Valid()
      modifies this
      ensures Valid() && |tmp| <= MAX_NAME + 1 && |tmp| <= |old(Rest())|
      ensures tmp == old(Rest())[..|tmp|] && Rest() == old(Rest())[|tmp|..]
      ensures |tmp| <= MAX_NAME ==> |tmp| == Unquoted(old(Rest()))
      ensures |tmp| > MAX_NAME ==> Unquoted(old(Rest())) > MAX_NAME
    {
      ghost var t := Rest();
      tmp := "";
      while pos < |text| && text[pos] != '"' && |tmp| <= MAX_NAME
        invariant Valid() && |tmp| <= MAX_NAME + 1 && |tmp| <= |t| && tmp == t[..|tmp|] && Rest() == t[|tmp|..]
        invariant forall i | 0 <= i < |tmp| :: tmp[i] != '"'
        decreases |text| - pos
      {
        tmp := tmp + [text[pos]];
        Next();
      }
      UnquotedIs(t, |tmp|);
    }

    /** expectString */
    method ExpectString() returns (name: Option<string>)
      requires Valid()
      modifies this
      ensures Valid()
      ensures match ParseString(old(Rest()))
              case Ok(n, rest) => name == Some(n) && Rest() == rest
              case _ => name == None
    {
      var ok := ReadChar('"');
      if !ok {
        return None;
      }
      ghost var t := Rest();
      var tmp := ReadUnquoted();
      if |tmp| > MAX_NAME || pos == |text| {
        return None;
      }
      ok := ReadChar('"');
      assert t[|tmp|..][1..] == t[|tmp| + 1..];
      name := Some(CString(tmp));
    }

    /** expectWord64 */
    method ExpectWord64() returns (n: nat)
      requires Valid()
      modifies this
      ensures Valid() && n == Word64(old(Rest())) && Rest() == AfterWord(old(Rest()))
    {
      hide WordFrom, Word64, AfterWord, DigitValue;
      n := 0;
      ghost var s := Rest();
      ghost var k: nat := 0;
      WordStarts(s);
      while pos < |text| && IsDigit(text[pos])
        invariant Valid() && k <= Digits(s) && Rest() == s[k..] && WordFrom(s, k, n) == Word64(s)
        decreases |text| - pos
      {
        WordStep(s, k, n);
        n := (n * 10 + DigitValue(text[pos])) % WORD64;
        Next();
        k := k + 1;
      }
      WordEnds(s, k, n);
    }

    /** The loop over the ticks of a module. */
    method ReadTicks(n: nat) returns (ticks: array<nat>)
      requires Valid()
      modifies this
      ensures Valid() && fresh(ticks) && ticks[..] == ParseTicks(n, old(Rest())).0
              && Rest() == ParseTicks(n, old(Rest())).1
    {
      hide ParseTicks, Word64, AfterWord, Ws, Comma, Rest;
      ticks := new nat[n](_ => 0);
      ghost var all := ParseTicks(n, Rest());
      var i := 0;
      while i < n
        invariant 0 <= i <= n && Valid() && fresh(ticks) && ticks.Length == n
        invariant all.0 == ticks[..i] + ParseTicks(n - i, Rest()).0 && all.1 == ParseTicks(n - i, Rest()).1
      {
        ghost var s := Rest();
        ghost var before := ticks[..i];
        TicksStep(n - i, s, before);
        var tick := ExpectWord64();
        ticks[i] := tick;
        SkipBlanks();
        SkipComma();
        i := i + 1;
        assert ticks[..i] == before + [tick];
      }
      TicksEnd(Rest());
      assert ticks[..n] == ticks[..] && ticks[..] + [] == ticks[..];
    }

    /** One module, from its keyword on. */
    method ReadModule() returns (m: Option<HpcModule>)
      requires Valid()
      modifies this
      ensures Valid()
      ensures match ParseModule(old(Rest()))
              case Ok(v, rest) => m == Some(v) && Rest() == rest
              case _ => m == None
    {
      hide ExpectAll, ParseString, Ws, Word64, AfterWord, ParseTicks, Expect, Rest;
      var ok := ReadChars("TixModule");
      if !ok {
        return None;
      }
      SkipBlanks();
      var name := ExpectString();
      if name == None {
        return None;
      }
      SkipBlanks();
      var hashNo := ExpectWord64();
      SkipBlanks();
      var tickCount := ExpectWord64();
      SkipBlanks();
      ok := ReadChar('[');
      if !ok {
        return None;
      }
      SkipBlanks();
      var ticks := ReadTicks(tickCount % WORD32);
      ok := ReadChar(']');
      if !ok {
        return None;
      }
      SkipBlanks();
      m := Some(HpcModule(name.value, hashNo % WORD32, ticks[..]));
    }

    /** readTix: all modules of the file go into the table, unless the program stops with a failure. */
    method ReadTix(moduleHash: Table) returns (r: Option<Table>)
      requires Valid()
      modifies this
      ensures Valid()
      ensures match ParseTix(old(Rest()))
              case Ok(ms, _) => r == MergeAll(moduleHash, ms)
              case _ => r == None
    {
      hide ParseModule, ExpectAll, Ws, Expect, Comma, Merge, Rest, MergeAll, ParseModules;
      SkipBlanks();
      var ok := ReadChars("Tix");
      if !ok {
        return None;
      }
      SkipBlanks();
      ok := ReadChar('[');
      if !ok {
        return None;
      }
      SkipBlanks();
      r := ReadModules(moduleHash);
    }

    method ReadModules(moduleHash: Table) returns (r: Option<Table>)
      requires Valid()
      modifies this
      ensures Valid()
      ensures match ParseModules(old(Rest()))
              case Ok(ms, _) => r == MergeAll(moduleHash, ms)
              case _ => r == None
    {
      hide ParseModule, Comma, Merge, MergeAll, ParseModules, Cons;
      var t := moduleHash;
      ghost var s0 := Rest();
      while pos == |text| || text[pos] != ']'
        invariant Valid() && Outcome(t, ParseModules(Rest())) == Outcome(moduleHash, ParseModules(s0))
        decreases |Rest()|
      {
        ghost var s := Rest();
        ModulesOutcome(t, s);
        ModuleShrinks(s);
        var m := ReadModule();
        if m == None {
          return None;
        }
        var t' := Register(t, m.value);
        if t' == None {
          return None;
        }
        t := t'.value;
        CommaShrinks(Rest());
        SkipComma();
      }
      ModulesEnd(t, Rest());
      r := Some(t);
    }
  }

  /** A module of the file is added, or its ticks are copied into those of the registered module. */
  method Register(t: Table, m: HpcModule) returns (r: Option<Table>)
    ensures r == Merge(t, m)
  {
    if m.name !in t {
      return Some(t[m.name := m]);
    }
    var registered := t[m.name];
    if m.hashNo != registered.hashNo || |m.ticks| > |registered.ticks| {
      return None;
    }
    var tixArr := registered.ticks;
    for i := 0 to |m.ticks|
      invariant |tixArr| == |registered.ticks| && tixArr[..i] == m.ticks[..i] && tixArr[i..] == registered.ticks[i..]
    {
      tixArr := tixArr[i := m.ticks[i]];
    }
    assert tixArr == tixArr[..|m.ticks|] + tixArr[|m.ticks|..] && m.ticks[..|m.ticks|] == m.ticks;
    r := Some(t[m.name := registered.(ticks := tixArr)]);
  }

  /** What becomes of the table. */
  ghost function Outcome(t: Table, r: Parsed<seq<HpcModule>>): Option<Table> {
    if r.Ok? then MergeAll(t, r.value) else None
  }

  lemma ModulesOutcome(t: Table, s: string)
    requires s == [] || s[0] != ']'
    ensures var first := ParseModule(s);
            Outcome(t, ParseModules(s)) ==
              if !first.Ok? || Merge(t, first.value).None? then None
              else Outcome(Merge(t, first.value).value, ParseModules(Comma(first.rest)))
  {
    hide ParseModule, Merge, Comma;
    var first := ParseModule(s);
    if first.Ok? {
      var r := ParseModules(Comma(first.rest));
      if r.Ok? {
        assert ([first.value] + r.value)[1..] == r.value;
      }
    }
  }

  lemma ModulesEnd(t: Table, s: string)
    requires s != [] && s[0] == ']'
    ensures Outcome(t, ParseModules(s)) == Some(t)
  {
  }

  lemma TicksStep(n: nat, s: string, before: seq<nat>)
    requires n > 0
    ensures var later := ParseTicks(n - 1, Comma(Ws(AfterWord(s))));
            before + ParseTicks(n, s).0 == (before + [Word64(s)]) + later.0 && ParseTicks(n, s).1 == later.1
  {
  }

  lemma TicksEnd(s: string)
    ensures ParseTicks(0, s).0 == [] && ParseTicks(0, s).1 == s
  {
  }

  lemma CommaShrinks(s: string)
    ensures |Comma(s)| <= |s|
  {
  }

  lemma {:induction false} UnquotedIs(s: string, n: nat)
    requires n <= |s| && forall i | 0 <= i < n :: s[i] != '"'
    ensures Unquoted(s) >= n && (n < |s| && s[n] == '"' ==> Unquoted(s) == n) && (n == |s| ==> Unquoted(s) == n)
    decreases |s|
  {
    if n > 0 {
      UnquotedIs(s[1..], n - 1);
    }
  }
}
