/** The text command frames of the remote control, "y<cmd> <data1> <data2> <checksum>c":
    how they are printed, and how comm_receive_callback reads them with strtol
    (section 7.22.1.4 of ISO C11). */
module Frames {
  import opened CTypes

  // ---- strtol, base 10 ----

  predicate IsSpace(c: char) {
    c == ' ' || '\t' <= c <= '\r'
  }

  predicate IsDigit(c: char) {
    '0' <= c <= '9'
  }

  function DigitValue(c: char): nat
    requires IsDigit(c)
  {
    c as int - '0' as int
  }

  function SkipSpace(s: string): string {
    if s != [] && IsSpace(s[0]) then SkipSpace(s[1..]) else s
  }

  /** A converted number and the text the end pointer is left at. */
  datatype Conversion = Conversion(value: int, rest: string)

  function Digits(s: string, acc: nat): Conversion {
    if s != [] && IsDigit(s[0]) then Digits(s[1..], 10 * acc + DigitValue(s[0])) else Conversion(acc, s)
  }

  function Strtol(s: string): Conversion {
    var t := SkipSpace(s);
    var signed := t != [] && (t[0] == '-' || t[0] == '+');
    var u := if signed then t[1..] else t;
    if u == [] || !IsDigit(u[0]) then
      Conversion(0, s)
    else
      var c := Digits(u, 0);
      Conversion(ClampLong(if signed && t[0] == '-' then -c.value else c.value), c.rest)
  }

  // ---- Reading a frame ----

  datatype Verdict = Malformed | BadChecksum | Accepted(cmd: int32, data1: int32, data2: int32)

  /** The four numbers of a frame, as int variables hold them. */
  datatype Fields = Fields(cmd: int32, data1: int32, data2: int32, checksum: int32)

  /** Four calls of strtol, each going on where the last one stopped. */
  function ReadFields(s: string): Fields {
    var f0 := Strtol(s);
    var f1 := Strtol(f0.rest);
    var f2 := Strtol(f1.rest);
    var f3 := Strtol(f2.rest);
    Fields(Wrap32(f0.value), Wrap32(f1.value), Wrap32(f2.value), Wrap32(f3.value))
  }

  function Parse(text: string): Verdict {
    if text == [] || text[0] != 'y' || text[|text| - 1] != 'c' then
      Malformed
    else
      var f := ReadFields(text[1..]);
      Judge(f.cmd, f.data1, f.data2, f.checksum)
  }

  /** The checksum test, int additions wrapping. */
  function Judge(cmd: int32, data1: int32, data2: int32, checksum: int32): Verdict {
    if Wrap32(Wrap32(cmd + data1) + data2) != checksum then BadChecksum else Accepted(cmd, data1, data2)
  }

  // ---- Printing a frame ----

  function Natural(n: nat): string {
    if n < 10 then [('0' as int + n) as char] else Natural(n / 10) + [('0' as int + n % 10) as char]
  }

  function Decimal(n: int): string {
    if n < 0 then "-" + Natural(-n) else Natural(n)
  }

  function Print(cmd: int, data1: int, data2: int, checksum: int): string {
    "y" + Decimal(cmd) + " " + Decimal(data1) + " " + Decimal(data2) + " " + Decimal(checksum) + "c"
  }

  /** What an int variable holds after reading the decimal text of any integer. */
  function Read(n: int): int32 {
    Wrap32(ClampLong(n))
  }

  // ---- strtol against the printer ----

  predicate AllDigits(s: string) {
    forall i :: 0 <= i < |s| ==> IsDigit(s[i])
  }

  /** The number a string of digits denotes in base 10, leading zeros included. */
  function NumberOf(digits: string): nat
    requires AllDigits(digits)
  {
    if digits == [] then 0
    else 10 * NumberOf(digits[..|digits| - 1]) + DigitValue(digits[|digits| - 1])
  }

  lemma {:induction false} NaturalDenotes(n: nat)
    ensures Natural(n) != [] && AllDigits(Natural(n)) && NumberOf(Natural(n)) == n
  {
    if n >= 10 {
      NaturalDenotes(n / 10);
      assert Natural(n)[..|Natural(n)| - 1] == Natural(n / 10);
    } else {
      assert NumberOf([]) == 0;
    }
  }

  lemma {:induction false} DigitsReadsAll(digits: string, rest: string)
    requires AllDigits(digits)
    ensures Digits(digits + rest, 0) == Digits(rest, NumberOf(digits))
    decreases |digits|
  {
    if digits == [] {
      assert digits + rest == rest;
    } else {
      var n := |digits| - 1;
      assert digits + rest == digits[..n] + ([digits[n]] + rest);
      DigitsReadsAll(digits[..n], [digits[n]] + rest);
      assert ([digits[n]] + rest)[1..] == rest;
    }
  }

  lemma {:induction false} SkipSpaceStops(blanks: string, s: string)
    requires forall c :: c in blanks ==> IsSpace(c)
    requires s == [] || !IsSpace(s[0])
    ensures SkipSpace(blanks + s) == s
  {
    if blanks == [] {
      assert blanks + s == s;
    } else {
      assert (blanks + s)[1..] == blanks[1..] + s;
      SkipSpaceStops(blanks[1..], s);
    }
  }

  /** The white space of the C locale: space, \t, \n, \v, \f, \r. */
  lemma WhiteSpace(c: char)
    ensures IsSpace(c) <==> c in " \t\n\U{B}\U{C}\r"
  {
    var all := " \t\n\U{B}\U{C}\r";
    assert all[0] == ' ' && all[1] == '\t' && all[2] == '\n';
    assert all[3] == '\U{B}' && all[4] == '\U{C}' && all[5] == '\r';
  }

  /** White space, an optional sign and one or more digits, up to the first other
      character, are read as the number they denote, saturated to long. */
  lemma StrtolReadsNumber(blanks: string, sign: string, digits: string, rest: string)
    requires forall c :: c in blanks ==> IsSpace(c)
    requires sign == "" || sign == "+" || sign == "-"
    requires digits != [] && AllDigits(digits)
    requires rest == [] || !IsDigit(rest[0])
    ensures Strtol(blanks + (sign + (digits + rest)))
         == Conversion(ClampLong(if sign == "-" then -(NumberOf(digits) as int) else NumberOf(digits) as int), rest)
  {
    var number := digits + rest;
    assert number[0] == digits[0];
    if sign == "" {
      assert sign + number == number;
    } else {
      assert (sign + number)[1..] == number && (sign + number)[0] == sign[0];
    }
    SkipSpaceStops(blanks, sign + number);
    DigitsReadsAll(digits, rest);
  }

  /** Text with no number after the white space converts to 0 and consumes nothing. */
  lemma StrtolReadsNothing(blanks: string, s: string)
    requires forall c :: c in blanks ==> IsSpace(c)
    requires s == [] || !(IsSpace(s[0]) || IsDigit(s[0]))
    requires s != [] && (s[0] == '-' || s[0] == '+') ==> |s| == 1 || !IsDigit(s[1])
    ensures Strtol(blanks + s) == Conversion(0, blanks + s)
  {
    SkipSpaceStops(blanks, s);
  }

  lemma StrtolReadsDecimal(blanks: string, n: int, rest: string)
    requires forall c :: c in blanks ==> IsSpace(c)
    requires rest == [] || !IsDigit(rest[0])
    ensures Strtol(blanks + (Decimal(n) + rest)) == Conversion(ClampLong(n), rest)
  {
    hide Natural, NumberOf, AllDigits, Strtol, ClampLong, IsSpace, IsDigit;
    if n < 0 {
      NaturalDenotes(-n);
      assert Decimal(n) + rest == "-" + (Natural(-n) + rest);
      StrtolReadsNumber(blanks, "-", Natural(-n), rest);
    } else {
      NaturalDenotes(n);
      assert "" + (Natural(n) + rest) == Decimal(n) + rest;
      StrtolReadsNumber(blanks, "", Natural(n), rest);
    }
  }

  // ---- Frame theorems ----

  /** On the bytes: a read is malformed exactly when it is empty, does not begin with 'y' or
      does not end with 'c'; any other is accepted exactly when its fourth number is the
      wrapping sum of the first three, and then as those three. */
  lemma VerdictOfBytes(text: string)
    ensures Parse(text) == Malformed <==> text == "" || text[0] != 'y' || text[|text| - 1] != 'c'
    ensures Parse(text) != Malformed ==>
      var f := ReadFields(text[1..]);
      Parse(text) == if (f.cmd + f.data1 + f.data2 - f.checksum) % 0x1_0000_0000 == 0
                     then Accepted(f.cmd, f.data1, f.data2) else BadChecksum
  {
    hide Strtol;
    if Parse(text) != Malformed {
      var f := ReadFields(text[1..]);
      var sum := f.cmd + f.data1 + f.data2;
      WrapSum(f.cmd, f.data1, f.data2);
      ConversionsAreModular(sum);
      SameModulo(Wrap32(sum), f.checksum, sum);
    }
  }

  /** Two ints congruent to the same number are equal. */
  lemma SameModulo(a: int32, b: int32, sum: int)
    requires (a - sum) % 0x1_0000_0000 == 0
    ensures a == b <==> (sum - b) % 0x1_0000_0000 == 0
  {
  }

  /** One number as it may be typed. */
  datatype Field = Field(blanks: string, sign: string, digits: string)

  predicate Typed(f: Field) {
    && (forall c :: c in f.blanks ==> c in " \t\n\U{B}\U{C}\r")
    && (f.sign == "" || f.sign == "+" || f.sign == "-")
    && f.digits != "" && AllDigits(f.digits)
  }

  function TextOf(f: Field): string {
    f.blanks + (f.sign + f.digits)
  }

  function ValueOf(f: Field): int
    requires Typed(f)
  {
    if f.sign == "-" then -(NumberOf(f.digits) as int) else NumberOf(f.digits)
  }

  lemma StrtolReadsField(f: Field, rest: string)
    requires Typed(f) && (rest == "" || !IsDigit(rest[0]))
    ensures Strtol(TextOf(f) + rest) == Conversion(ClampLong(ValueOf(f)), rest)
  {
    hide Strtol, ClampLong, NumberOf, AllDigits;
    forall c | c in f.blanks ensures IsSpace(c) {
      WhiteSpace(c);
    }
    assert TextOf(f) + rest == f.blanks + (f.sign + (f.digits + rest));
    StrtolReadsNumber(f.blanks, f.sign, f.digits, rest);
  }

  /** The grammar the protocol really has: 'y', four numbers with any white space, signs and
      leading zeros, told apart by white space or a sign, and after a character that is no
      digit any text that ends in 'c'. */
  lemma TypedFrame(f0: Field, f1: Field, f2: Field, f3: Field, rest: string)
    requires Typed(f0) && Typed(f1) && Typed(f2) && Typed(f3)
    requires f1.blanks + f1.sign != "" && f2.blanks + f2.sign != "" && f3.blanks + f3.sign != ""
    requires rest != "" && !IsDigit(rest[0]) && rest[|rest| - 1] == 'c'
    ensures Parse("y" + (TextOf(f0) + (TextOf(f1) + (TextOf(f2) + (TextOf(f3) + rest)))))
         == Judge(Read(ValueOf(f0)), Read(ValueOf(f1)), Read(ValueOf(f2)), Read(ValueOf(f3)))
  {
    hide Wrap32, ClampLong, Judge, Strtol, TextOf, ValueOf, Typed;
    var t3 := TextOf(f3) + rest;
    var t2 := TextOf(f2) + t3;
    var t1 := TextOf(f1) + t2;
    var text := "y" + (TextOf(f0) + t1);
    assert text[1..] == TextOf(f0) + t1;
    assert text[|text| - 1] == 'c';
    NotADigitFirst(f1);
    NotADigitFirst(f2);
    NotADigitFirst(f3);
    StrtolReadsField(f0, t1);
    StrtolReadsField(f1, t2);
    StrtolReadsField(f2, t3);
    StrtolReadsField(f3, rest);
  }

  lemma NotADigitFirst(f: Field)
    requires Typed(f) && f.blanks + f.sign != ""
    ensures TextOf(f) != "" && !IsDigit(TextOf(f)[0])
  {
    if f.blanks != "" {
      assert TextOf(f)[0] == f.blanks[0];
      WhiteSpace(f.blanks[0]);
      assert IsSpace(f.blanks[0]);
    }
  }

  /** What a read may hold after its first frame without being rejected whole. */
  predicate EndsLikeFrame(extra: string) {
    extra == [] || extra[|extra| - 1] == 'c'
  }

  /** A printed frame of any four integers, followed by any text: if the read ends in 'c'
      only the four leading numbers count, each as an int variable holds it; if it does
      not, the read is rejected whole. */
  lemma ParsePrintedPrefix(cmd: int, data1: int, data2: int, checksum: int, extra: string)
    ensures Parse(Print(cmd, data1, data2, checksum) + extra)
         == if EndsLikeFrame(extra) then Judge(Read(cmd), Read(data1), Read(data2), Read(checksum)) else Malformed
  {
    hide Wrap32, ClampLong, Judge, Strtol, Decimal, Print;
    var end := "c" + extra;
    var r2 := " " + (Decimal(checksum) + end);
    var r1 := " " + (Decimal(data2) + r2);
    var r0 := " " + (Decimal(data1) + r1);
    PrintShape(cmd, data1, data2, checksum, extra);
    if EndsLikeFrame(extra) {
      StrtolReadsDecimal("", cmd, r0);
      StrtolReadsDecimal(" ", data1, r1);
      StrtolReadsDecimal(" ", data2, r2);
      StrtolReadsDecimal(" ", checksum, end);
    }
  }

  lemma PrintShape(cmd: int, data1: int, data2: int, checksum: int, extra: string)
    ensures var text := Print(cmd, data1, data2, checksum) + extra;
      var end := "c" + extra;
      var rest := " " + (Decimal(data1) + (" " + (Decimal(data2) + (" " + (Decimal(checksum) + end)))));
      && text != [] && text[0] == 'y' && (text[|text| - 1] == 'c' <==> EndsLikeFrame(extra))
      && text[1..] == "" + (Decimal(cmd) + rest)
  {
    hide Decimal;
    var end := "c" + extra;
    var rest := " " + (Decimal(data1) + (" " + (Decimal(data2) + (" " + (Decimal(checksum) + end)))));
    assert Print(cmd, data1, data2, checksum) + extra == "y" + (Decimal(cmd) + rest);
  }

  lemma ReadInts(a: int32, b: int32, c: int32, d: int32)
    ensures Read(a) == a && Read(b) == b && Read(c) == c && Read(d) == d
  {
  }

  /** Round trip: a printed frame of int fields is read back as exactly those
      fields, and passes the checksum test exactly when it carries their sum. */
  lemma FrameRoundTrip(cmd: int32, data1: int32, data2: int32, checksum: int32)
    ensures Parse(Print(cmd, data1, data2, checksum))
         == if checksum == Wrap32(cmd + data1 + data2) then Accepted(cmd, data1, data2) else BadChecksum
  {
    hide Parse, Print, Read, Wrap32;
    assert Print(cmd, data1, data2, checksum) + "" == Print(cmd, data1, data2, checksum);
    ParsePrintedPrefix(cmd, data1, data2, checksum, "");
    ReadInts(cmd, data1, data2, checksum);
    WrapSum(cmd, data1, data2);
  }

  /** A good frame and more text delivered by one read: the frame is accepted exactly when
      the read ends in 'c', as after any number of whole frames, and then all but the first
      are dropped. A read that ends inside a later frame is rejected, and the first frame is
      lost with it. */
  lemma FirstFrameOfRead(cmd: int32, data1: int32, data2: int32, extra: string)
    ensures Parse(Print(cmd, data1, data2, Wrap32(cmd + data1 + data2)) + extra)
         == if EndsLikeFrame(extra) then Accepted(cmd, data1, data2) else Malformed
  {
    hide Print, Read, Wrap32, Strtol, Parse;
    ParsePrintedPrefix(cmd, data1, data2, Wrap32(cmd + data1 + data2), extra);
    ReadInts(cmd, data1, data2, Wrap32(cmd + data1 + data2));
    WrapSum(cmd, data1, data2);
  }

  function Pow10(k: nat): nat {
    if k == 0 then 1 else 10 * Pow10(k - 1)
  }

  lemma {:induction false} NaturalLength(n: nat, k: nat)
    requires 1 <= k && n < Pow10(k)
    ensures |Natural(n)| <= k
  {
    if n >= 10 {
      assert k > 1;
      NaturalLength(n / 10, k - 1);
    }
  }

  lemma {:induction false} NaturalHasNoNul(n: nat)
    ensures '\0' !in Natural(n)
  {
    if n >= 10 {
      NaturalHasNoNul(n / 10);
    }
  }

  lemma DecimalFits(n: int32)
    ensures |Decimal(n)| <= 11 && '\0' !in Decimal(n)
  {
    var m: int := if n < 0 then -(n as int) else n as int;
    assert Pow10(10) == 10 * Pow10(9) == 100 * Pow10(8) == 1000 * Pow10(7) == 10000 * Pow10(6);
    assert Pow10(6) == 10 * Pow10(5) == 100 * Pow10(4) == 1000 * Pow10(3) == 10000 * Pow10(2);
    NaturalLength(m, 10);
    NaturalHasNoNul(m);
  }

  /** Every frame of int fields fits the 100-byte receive buffer with its NUL. */
  lemma FrameFits(cmd: int32, data1: int32, data2: int32, checksum: int32)
    ensures |Print(cmd, data1, data2, checksum)| < 50
    ensures '\0' !in Print(cmd, data1, data2, checksum)
  {
    DecimalFits(cmd);
    DecimalFits(data1);
    DecimalFits(data2);
    DecimalFits(checksum);
  }
}
