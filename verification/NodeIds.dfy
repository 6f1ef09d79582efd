/**
 Mesh node identifiers: printing a node number as `!%08x` and reading a traceroute target
 back into a number and its canonical identifier. Strings are ASCII.
 */
module NodeIds {
  import opened Options

  const MAX_NODE_NUM: int := 0xFFFF_FFFF
  const HEX_DIGITS: string := "0123456789abcdef"

  /** What a caller may hand over as a target. Booleans are told apart from integers. */
  datatype Target = Text(text: string) | Number(num: int) | Truth(b: bool) | Other

  datatype NodeId = NodeId(num: int, id: string)

  datatype TargetError = Invalid | Empty | NotHex | WrongType | OutOfRange | NotASingleNode

  datatype Parsed = Accepted(node: NodeId) | Rejected(error: TargetError)

  // ----- Printing -----

  function Digit(d: int): char
    requires 0 <= d < 16
  {
    HEX_DIGITS[d]
  }

  /** The low `width` hexadecimal digits of a number, most significant first. */
  function Hex(n: nat, width: nat): (s: string)
    ensures |s| == width
    ensures forall i :: 0 <= i < width ==> HexValue(s[i]).Some?
  {
    if width == 0 then "" else Hex(n / 16, width - 1) + [Digit(n % 16)]
  }

  function HexId(num: int): string {
    "!" + Hex(num % (MAX_NODE_NUM + 1), 8)
  }

  // ----- Reading: Python's str.strip and int(text, 16) -----

  predicate IsStripped(c: char) {
    '\t' <= c <= '\r' || 28 as char <= c <= ' '
  }

  predicate IsIntSpace(c: char) {
    '\t' <= c <= '\r' || c == ' '
  }

  function Strip(s: string, space: char -> bool): (r: string)
    ensures |r| <= |s|
    ensures s == "" || (!space(s[0]) && !space(s[|s| - 1])) ==> r == s
    decreases |s|
  {
    if s == "" then ""
    else if space(s[0]) then Strip(s[1..], space)
    else if space(s[|s| - 1]) then Strip(s[..|s| - 1], space)
    else s
  }

  function HexValue(c: char): Option<int> {
    if '0' <= c <= '9' then Some(c as int - '0' as int)
    else if 'a' <= c <= 'f' then Some(c as int - 'a' as int + 10)
    else if 'A' <= c <= 'F' then Some(c as int - 'A' as int + 10)
    else None
  }

  /** Hexadecimal digits, in which single underscores may separate digits. */
  function ReadDigits(s: string): (r: Option<int>)
    ensures r.Some? ==> r.value >= 0
    decreases |s|
  {
    if s == "" then None
    else
      var last := HexValue(s[|s| - 1]);
      if last.None? then None
      else if |s| == 1 then last
      else
        var more := if s[|s| - 2] == '_' then ReadDigits(s[..|s| - 2]) else ReadDigits(s[..|s| - 1]);
        if more.None? then None else Some(16 * more.value + last.value)
  }

  /** An optional `0x`, after which one underscore is allowed too. */
  function ReadUnsigned(s: string): Option<int> {
    if |s| >= 2 && s[0] == '0' && (s[1] == 'x' || s[1] == 'X')
    then ReadDigits(if |s| >= 3 && s[2] == '_' then s[3..] else s[2..])
    else ReadDigits(s)
  }

  /** What `int` makes of a text without blanks around it. */
  function ReadSigned(t: string): Option<int> {
    if t != "" && t[0] == '-' then
      var r := ReadUnsigned(t[1..]);
      if r.None? then None else Some(-r.value)
    else if t != "" && t[0] == '+' then ReadUnsigned(t[1..])
    else ReadUnsigned(t)
  }

  function ReadHex(s: string): Option<int> {
    ReadSigned(Strip(s, IsIntSpace))
  }

  // ----- Normalising a target -----

  /** What is left of a target once it is stripped of blanks and of one leading `!`. */
  function Raw(text: string): string {
    var stripped := Strip(text, IsStripped);
    if stripped != "" && stripped[0] == '!' then stripped[1..] else stripped
  }

  function NormalizeNumber(num: int): Parsed {
    if num < 0 || num > MAX_NODE_NUM then Rejected(OutOfRange)
    else if num == 0 || num == MAX_NODE_NUM then Rejected(NotASingleNode)
    else Accepted(NodeId(num, HexId(num)))
  }

  function Normalize(target: Target): Parsed {
    match target
    case Truth(_) => Rejected(Invalid)
    case Number(num) => NormalizeNumber(num)
    case Text(text) =>
      var raw := Raw(text);
      if raw == "" then Rejected(Empty)
      else if ReadHex(raw).None? then Rejected(NotHex)
      else NormalizeNumber(ReadHex(raw).value)
    case Other => Rejected(WrongType)
  }

  /** A node number that designates one node: neither 0 nor the broadcast address. */
  predicate SingleNode(num: int) {
    0 < num < MAX_NODE_NUM
  }

  /** A target written exactly as its own canonical identifier. */
  predicate Canonical(target: string) {
    var p := Normalize(Text(target));
    p.Accepted? && p.node.id == target
  }

  // ----- Round trips -----

  function Power16(k: nat): nat {
    if k == 0 then 1 else 16 * Power16(k - 1)
  }

  lemma DigitIsReadBack(d: int)
    requires 0 <= d < 16
    ensures HexValue(Digit(d)) == Some(d)
    ensures Digit(d) != '_' && Digit(d) != 'x' && Digit(d) != 'X'
    ensures Digit(d) != '!' && Digit(d) != '-' && Digit(d) != '+'
    ensures !IsStripped(Digit(d)) && !IsIntSpace(Digit(d))
  {
    assert HEX_DIGITS[0] == '0' && HEX_DIGITS[9] == '9' && HEX_DIGITS[10] == 'a' && HEX_DIGITS[15] == 'f';
  }

  lemma {:induction false} HexIsMadeOfDigits(n: nat, width: nat, i: nat)
    requires i < width
    ensures exists d: int {:trigger Digit(d)} :: 0 <= d < 16 && Hex(n, width)[i] == Digit(d)
  {
    if i == width - 1 {
      assert Hex(n, width)[i] == Digit(n % 16);
    } else {
      HexIsMadeOfDigits(n / 16, width - 1, i);
    }
  }

  lemma ReadOneMoreDigit(s: string, m: int, d: int)
    requires |s| >= 2 && s[|s| - 2] != '_'
    requires HexValue(s[|s| - 1]) == Some(d)
    requires ReadDigits(s[..|s| - 1]) == Some(m)
    ensures ReadDigits(s) == Some(16 * m + d)
  {
  }

  lemma HexIsFreeOfUnderscores(n: nat, width: nat, i: nat)
    requires i < width
    ensures Hex(n, width)[i] != '_'
  {
    HexIsMadeOfDigits(n, width, i);
    var d :| 0 <= d < 16 && Hex(n, width)[i] == Digit(d);
    DigitIsReadBack(d);
  }

  lemma HexSplits(n: nat, width: nat)
    requires width > 0
    ensures Hex(n, width)[width - 1] == Digit(n % 16)
    ensures Hex(n, width)[..width - 1] == Hex(n / 16, width - 1)
  {
  }

  lemma ReadOneDigit(s: string, d: int)
    requires |s| == 1 && HexValue(s[0]) == Some(d)
    ensures ReadDigits(s) == Some(d)
  {
  }

  lemma HighDigitsFit(n: nat, width: nat)
    requires width > 1 && n < Power16(width)
    ensures n / 16 < Power16(width - 1)
  {
  }

  lemma {:induction false} ReadDigitsOfHex(n: nat, width: nat)
    requires width > 0
    requires n < Power16(width)
    ensures ReadDigits(Hex(n, width)) == Some(n)
  {
    var s := Hex(n, width);
    var high, low := n / 16, n % 16;
    assert n == 16 * high + low;
    HexSplits(n, width);
    DigitIsReadBack(low);
    if width == 1 {
      ReadOneDigit(s, low);
      assert Power16(1) == 16;
    } else {
      HighDigitsFit(n, width);
      ReadDigitsOfHex(high, width - 1);
      HexIsFreeOfUnderscores(n, width, width - 2);
      ReadOneMoreDigit(s, high, low);
    }
  }

  lemma Power16Of8()
    ensures Power16(8) == MAX_NODE_NUM + 1
  {
    assert Power16(4) == 0x1_0000;
    assert Power16(8) == 16 * Power16(7) == 256 * Power16(6) == 4096 * Power16(5) == 0x1_0000 * Power16(4);
  }

  /** Reading eight printed digits gives the number back, through every layer of `int(text, 16)`. */
  lemma ReadHexOfHex(num: nat)
    requires num <= MAX_NODE_NUM
    ensures ReadHex(Hex(num, 8)) == Some(num)
  {
    var s := Hex(num, 8);
    Power16Of8();
    ReadDigitsOfHex(num, 8);
    forall i: nat | i < 8
      ensures exists d: int {:trigger Digit(d)} :: 0 <= d < 16 && s[i] == Digit(d)
    {
      HexIsMadeOfDigits(num, 8, i);
    }
    var d0 :| 0 <= d0 < 16 && s[0] == Digit(d0);
    var d1 :| 0 <= d1 < 16 && s[1] == Digit(d1);
    var d7 :| 0 <= d7 < 16 && s[7] == Digit(d7);
    DigitIsReadBack(d0);
    DigitIsReadBack(d1);
    DigitIsReadBack(d7);
    assert Strip(s, IsIntSpace) == s;
  }

  /** The text of eight printed digits survives `strip` and carries no `!`. */
  lemma HexSurvivesStrip(num: nat)
    ensures Strip(Hex(num, 8), IsStripped) == Hex(num, 8)
    ensures Hex(num, 8)[0] != '!'
    ensures Strip("!" + Hex(num, 8), IsStripped) == "!" + Hex(num, 8)
  {
    var s := Hex(num, 8);
    HexIsMadeOfDigits(num, 8, 0);
    HexIsMadeOfDigits(num, 8, 7);
    var d0 :| 0 <= d0 < 16 && s[0] == Digit(d0);
    var d7 :| 0 <= d7 < 16 && s[7] == Digit(d7);
    DigitIsReadBack(d0);
    DigitIsReadBack(d7);
  }

  lemma RawOfPrinted(num: nat)
    ensures Raw("!" + Hex(num, 8)) == Hex(num, 8)
    ensures Raw(Hex(num, 8)) == Hex(num, 8)
  {
    HexSurvivesStrip(num);
    WithoutBang(Hex(num, 8));
  }

  lemma NormalizeReadable(text: string, num: int)
    requires Raw(text) != ""
    requires ReadHex(Raw(text)) == Some(num)
    ensures Normalize(Text(text)) == NormalizeNumber(num)
  {
  }

  /** Printing then normalising gives the same node, with or without the leading `!`. */
  lemma NormalizePrinted(num: int)
    requires SingleNode(num)
    ensures Normalize(Text(HexId(num))) == Accepted(NodeId(num, HexId(num)))
    ensures Normalize(Text(HexId(num)[1..])) == Accepted(NodeId(num, HexId(num)))
    ensures Normalize(Number(num)) == Accepted(NodeId(num, HexId(num)))
  {
    PrintedDigits(num);
    ReadHexOfHex(num);
    RawOfPrinted(num);
    NormalizeReadable(HexId(num), num);
    NormalizeReadable(HexId(num)[1..], num);
  }

  lemma PrintedDigits(num: int)
    requires 0 <= num <= MAX_NODE_NUM
    ensures HexId(num) == "!" + Hex(num, 8)
    ensures HexId(num)[1..] == Hex(num, 8)
  {
    assert num % (MAX_NODE_NUM + 1) == num;
    WithoutBang(Hex(num, 8));
  }

  lemma WithoutBang(s: string)
    ensures ("!" + s)[1..] == s
  {
  }

  /** The identifier of an accepted target is canonical: normalising it again changes nothing. */
  lemma NormalizeIsIdempotent(target: Target)
    requires Normalize(target).Accepted?
    ensures var node := Normalize(target).node;
            SingleNode(node.num) && node.id == HexId(node.num) &&
            Canonical(node.id) && Normalize(Text(node.id)) == Accepted(node)
  {
    NormalizePrinted(Normalize(target).node.num);
  }

  // ----- Other spellings -----

  function LowerChar(c: char): char {
    if 'A' <= c <= 'F' then (c as int - 'A' as int + 'a' as int) as char else c
  }

  /** The hexadecimal letters in lower case, and nothing else changed. */
  function Lower(s: string): (r: string)
    ensures |r| == |s|
    ensures forall i :: 0 <= i < |s| ==> r[i] == LowerChar(s[i])
  {
    seq(|s|, i requires 0 <= i < |s| => LowerChar(s[i]))
  }

  lemma LowerReadsAlike(c: char)
    ensures HexValue(LowerChar(c)) == HexValue(c)
    ensures IsStripped(LowerChar(c)) == IsStripped(c) && IsIntSpace(LowerChar(c)) == IsIntSpace(c)
  {
  }

  lemma LowerKeeps(c: char, d: char)
    requires HexValue(d).None? || '0' <= d <= '9'
    ensures LowerChar(c) == d <==> c == d
  {
  }

  lemma LowerSlice(s: string, i: nat, j: nat)
    requires i <= j <= |s|
    ensures Lower(s)[i..j] == Lower(s[i..j])
    ensures Lower(s)[i..] == Lower(s[i..]) && Lower(s)[..j] == Lower(s[..j])
  {
  }

  lemma {:induction false} StripLower(s: string, space: char -> bool)
    requires forall c :: space(LowerChar(c)) == space(c)
    ensures Strip(Lower(s), space) == Lower(Strip(s, space))
    decreases |s|
  {
    if s != "" {
      LowerSlice(s, 1, |s|);
      LowerSlice(s, 0, |s| - 1);
      assert space(Lower(s)[0]) == space(s[0]) && space(Lower(s)[|s| - 1]) == space(s[|s| - 1]);
      if space(s[0]) {
        StripLower(s[1..], space);
      } else if space(s[|s| - 1]) {
        StripLower(s[..|s| - 1], space);
      }
    }
  }

  /** What is read before the last digit. */
  function BeforeLast(s: string): string
    requires |s| >= 2
  {
    if s[|s| - 2] == '_' then s[..|s| - 2] else s[..|s| - 1]
  }

  lemma ReadAlike(s: string, t: string)
    requires |s| >= 2 && |t| >= 2 && HexValue(s[|s| - 1]) == HexValue(t[|t| - 1])
    requires ReadDigits(BeforeLast(s)) == ReadDigits(BeforeLast(t))
    ensures ReadDigits(s) == ReadDigits(t)
  {
  }

  lemma {:induction false} ReadDigitsLower(s: string)
    ensures ReadDigits(Lower(s)) == ReadDigits(s)
    decreases |s|
  {
    if s != "" {
      LowerReadsAlike(s[|s| - 1]);
      if |s| > 1 {
        LowerKeeps(s[|s| - 2], '_');
        LowerSlice(s, 0, |BeforeLast(s)|);
        assert BeforeLast(Lower(s)) == Lower(BeforeLast(s));
        ReadDigitsLower(BeforeLast(s));
        ReadAlike(Lower(s), s);
      }
    }
  }

  lemma Prefixed(s: string)
    requires |s| >= 2
    ensures var t := Lower(s);
            t[0] == '0' && (t[1] == 'x' || t[1] == 'X') <==> s[0] == '0' && (s[1] == 'x' || s[1] == 'X')
    ensures |s| >= 3 ==> (Lower(s)[2] == '_' <==> s[2] == '_')
  {
    LowerKeeps(s[0], '0');
    LowerKeeps(s[1], 'x');
    LowerKeeps(s[1], 'X');
    if |s| >= 3 {
      LowerKeeps(s[2], '_');
    }
  }

  lemma ReadUnsignedLower(s: string)
    ensures ReadUnsigned(Lower(s)) == ReadUnsigned(s)
  {
    if |s| >= 2 && s[0] == '0' && (s[1] == 'x' || s[1] == 'X') {
      Prefixed(s);
      var start := if |s| >= 3 && s[2] == '_' then 3 else 2;
      LowerSlice(s, start, |s|);
      ReadDigitsLower(s[start..]);
    } else {
      if |s| >= 2 {
        Prefixed(s);
      }
      ReadDigitsLower(s);
    }
  }

  lemma SpacesIgnoreCase()
    ensures forall c :: IsStripped(LowerChar(c)) == IsStripped(c)
    ensures forall c :: IsIntSpace(LowerChar(c)) == IsIntSpace(c)
  {
    forall c: char ensures IsStripped(LowerChar(c)) == IsStripped(c) && IsIntSpace(LowerChar(c)) == IsIntSpace(c) {
      LowerReadsAlike(c);
    }
  }

  lemma ReadSignedLower(t: string)
    ensures ReadSigned(Lower(t)) == ReadSigned(t)
  {
    if t != "" {
      LowerKeeps(t[0], '-');
      LowerKeeps(t[0], '+');
      if t[0] == '-' || t[0] == '+' {
        LowerSlice(t, 1, |t|);
        ReadUnsignedLower(t[1..]);
      } else {
        ReadUnsignedLower(t);
      }
    } else {
      ReadUnsignedLower(t);
    }
  }

  lemma ReadHexLower(s: string)
    ensures ReadHex(Lower(s)) == ReadHex(s)
  {
    SpacesIgnoreCase();
    StripLower(s, IsIntSpace);
    ReadSignedLower(Strip(s, IsIntSpace));
  }

  /** The case of the digits never matters, in any text. */
  lemma NormalizeIgnoresCase(text: string)
    ensures Normalize(Text(Lower(text))) == Normalize(Text(text))
  {
    SpacesIgnoreCase();
    StripLower(text, IsStripped);
    var stripped := Strip(text, IsStripped);
    if stripped != "" {
      LowerKeeps(stripped[0], '!');
      LowerSlice(stripped, 1, |stripped|);
    }
    ReadHexLower(Raw(text));
  }

  lemma {:induction false} StripBehind(s: string, c: char, space: char -> bool)
    requires space(c)
    ensures Strip(s + [c], space) == Strip(s, space)
    decreases |s|
  {
    assert (s + [c])[..|s|] == s;
    if s != "" && space(s[0]) {
      assert (s + [c])[1..] == s[1..] + [c];
      StripBehind(s[1..], c, space);
    } else if s == "" {
      assert (s + [c])[1..] == "";
    }
  }

  lemma {:induction false} StripRound(before: string, s: string, after: string, space: char -> bool)
    requires forall c :: c in before || c in after ==> space(c)
    ensures Strip(before + s + after, space) == Strip(s, space)
    decreases |before| + |after|
  {
    if before != "" {
      assert (before + s + after)[1..] == before[1..] + s + after;
      assert before[0] in before;
      StripRound(before[1..], s, after, space);
    } else if after != "" {
      var last := |after| - 1;
      assert before + s + after == (before + s + after[..last]) + [after[last]];
      assert after[last] in after;
      StripBehind(before + s + after[..last], after[last], space);
      StripRound(before, s, after[..last], space);
    } else {
      assert before + s + after == s;
    }
  }

  /** Nor do blanks around it: spaces, tabs, line ends and the four separators. */
  lemma NormalizeIgnoresBlanks(before: string, text: string, after: string)
    requires forall c :: c in before || c in after ==>
               c == ' ' || 9 <= c as int <= 13 || 28 <= c as int <= 31
    ensures Normalize(Text(before + text + after)) == Normalize(Text(text))
  {
    StripRound(before, text, after, IsStripped);
  }

  /** `int` takes blanks around the number too: spaces, tabs and line ends, but not the separators. */
  lemma ReadHexIgnoresBlanks(before: string, s: string, after: string)
    requires forall c :: c in before || c in after ==> c == ' ' || 9 <= c as int <= 13
    ensures ReadHex(before + s + after) == ReadHex(s)
  {
    StripRound(before, s, after, IsIntSpace);
  }

  /** And one underscore between any two digits. */
  lemma {:induction false} ReadIgnoresUnderscores(s: string, t: string)
    requires s != "" && s[|s| - 1] != '_' && t != "" && t[0] != '_'
    ensures ReadDigits(s + "_" + t) == ReadDigits(s + t)
    decreases |t|
  {
    var n := if |t| == 1 then 0 else if t[|t| - 2] == '_' then |t| - 2 else |t| - 1;
    if n == 0 {
      assert BeforeLast(s + "_" + t) == s && BeforeLast(s + t) == s;
    } else {
      assert BeforeLast(s + "_" + t) == s + "_" + t[..n] && BeforeLast(s + t) == s + t[..n];
      ReadIgnoresUnderscores(s, t[..n]);
    }
    ReadAlike(s + "_" + t, s + t);
  }

  lemma DigitsEndPlainly(num: nat, width: nat)
    requires width > 0
    ensures var s := Hex(num, width);
            && Strip(s, IsIntSpace) == s && Strip(s, IsStripped) == s
            && s[0] !in "!-+_xX" && s[|s| - 1] !in "!-+_xX" && (width > 1 ==> s[1] !in "xX_")
            && !IsIntSpace(s[|s| - 1]) && !IsStripped(s[|s| - 1])
  {
    HexIsMadeOfDigits(num, width, 0);
    HexIsMadeOfDigits(num, width, width - 1);
    var a :| 0 <= a < 16 && Hex(num, width)[0] == Digit(a);
    var b :| 0 <= b < 16 && Hex(num, width)[width - 1] == Digit(b);
    DigitIsReadBack(a);
    DigitIsReadBack(b);
    if width > 1 {
      HexIsMadeOfDigits(num, width, 1);
      var c :| 0 <= c < 16 && Hex(num, width)[1] == Digit(c);
      DigitIsReadBack(c);
    }
  }

  lemma ReadBehind(prefix: string, s: string)
    requires s != "" && !IsIntSpace(s[|s| - 1]) && prefix != "" && !IsIntSpace(prefix[0])
    ensures Strip(prefix + s, IsIntSpace) == prefix + s
  {
  }

  lemma ReadPlain(s: string, num: int)
    requires s != "" && s[0] !in "+-" && (|s| > 1 ==> s[1] !in "xX") && ReadDigits(s) == Some(num)
    ensures ReadSigned(s) == Some(num) && ReadSigned("+" + s) == Some(num)
    ensures ReadSigned("-" + s) == Some(-num)
  {
    assert ReadUnsigned(s) == Some(num);
    assert ("+" + s)[1..] == s && ("-" + s)[1..] == s;
  }

  lemma ReadWithPrefix(s: string, num: nat)
    requires s != "" && s[0] != '_' && ReadDigits(s) == Some(num)
    ensures ReadSigned("0x" + s) == Some(num) && ReadSigned("0x_" + s) == Some(num)
  {
    assert ("0x" + s)[2..] == s && ("0x" + s)[2] == s[0];
    assert ("0x_" + s)[3..] == s;
  }

  /** Any number of digits is read back, leading zeros and all, and so it is behind a sign or `0x`. */
  lemma ReadSpellings(num: int, width: nat)
    requires width > 0 && 0 <= num < Power16(width)
    ensures ReadHex(Hex(num, width)) == Some(num) && ReadHex("+" + Hex(num, width)) == Some(num)
    ensures ReadHex("-" + Hex(num, width)) == Some(-num)
    ensures ReadHex("0x" + Hex(num, width)) == Some(num) && ReadHex("0x_" + Hex(num, width)) == Some(num)
  {
    var s := Hex(num, width);
    ReadDigitsOfHex(num, width);
    DigitsEndPlainly(num, width);
    ReadPlain(s, num);
    ReadWithPrefix(s, num);
    ReadBehind("+", s);
    ReadBehind("-", s);
    ReadBehind("0x", s);
    ReadBehind("0x_", s);
  }

  /** A target may be given with fewer digits than are printed, or with more; only the number counts. */
  lemma NormalizeSpelled(num: nat, width: nat)
    requires width > 0 && num < Power16(width)
    ensures Normalize(Text(Hex(num, width))) == Normalize(Number(num))
    ensures Normalize(Text("!" + Hex(num, width))) == Normalize(Number(num))
    ensures Normalize(Number(num)).Accepted? <==> 0 < num < 0xFFFF_FFFF
  {
    var s := Hex(num, width);
    ReadSpellings(num, width);
    DigitsEndPlainly(num, width);
    assert Strip("!" + s, IsStripped) == "!" + s;
    assert ("!" + s)[1..] == s;
  }

  /** Only the low 32 bits are printed, and on 32 bits no two numbers print alike. */
  lemma HexIdSeparatesNumbers(a: int, b: int)
    ensures HexId(a) == HexId(b) <==> a % (MAX_NODE_NUM + 1) == b % (MAX_NODE_NUM + 1)
  {
    var x := a % (MAX_NODE_NUM + 1);
    var y := b % (MAX_NODE_NUM + 1);
    if HexId(a) == HexId(b) {
      assert HexId(a)[1..] == Hex(x, 8) && HexId(b)[1..] == Hex(y, 8);
      ReadHexOfHex(x);
      ReadHexOfHex(y);
    }
  }

  /** A target may be accepted without being canonical: dropping the `!` is enough. */
  lemma BareHexIsNotCanonical(num: int)
    requires SingleNode(num)
    ensures Normalize(Text(HexId(num)[1..])).Accepted? && !Canonical(HexId(num)[1..])
  {
    NormalizePrinted(num);
    assert |HexId(num)| == 9;
  }
}
