/** The text of a test case's error: the `ensure!` format strings of the test
    cases, filled in with `{}` (Display of a count) and `{:?}` (Debug of a
    UUID list or of a property set). */
module Diagnostics {
  import opened Gatt

  /** Display of an unsigned integer: decimal digits, no leading zeros. */
  function Decimal(n: nat): (s: string)
    decreases n
  {
    if n < 10 then [DigitChar(n)] else Decimal(n / 10) + [DigitChar(n % 10)]
  }

  function DigitChar(d: nat): char
    requires d < 10
  {
    "0123456789"[d]
  }

  predicate IsDigit(c: char) {
    '0' <= c <= '9'
  }

  /** The number a string of decimal digits denotes. */
  function DecimalValue(s: string): nat
    requires forall i :: 0 <= i < |s| ==> IsDigit(s[i])
  {
    if s == [] then 0
    else
      assert IsDigit(s[|s| - 1]);
      10 * DecimalValue(s[..|s| - 1]) + (s[|s| - 1] as int - '0' as int)
  }

  /** Reading back the digits of a count gives the count: the diagnostic
      states the actual number. */
  lemma {:induction false} DecimalRoundTrip(n: nat)
    ensures forall i :: 0 <= i < |Decimal(n)| ==> IsDigit(Decimal(n)[i])
    ensures |Decimal(n)| >= 1 && (|Decimal(n)| > 1 ==> Decimal(n)[0] != '0')
    ensures DecimalValue(Decimal(n)) == n
    decreases n
  {
    if n >= 10 {
      DecimalRoundTrip(n / 10);
      var s := Decimal(n);
      assert s[..|s| - 1] == Decimal(n / 10);
    }
  }

  /** The last `width` hexadecimal digits of `n`, most significant first. */
  function Hex(n: nat, width: nat, upper: bool): (s: string)
    ensures |s| == width
  {
    if width == 0 then []
    else Hex(n / 16, width - 1, upper) + [HexChar(n % 16, upper)]
  }

  function HexChar(d: nat, upper: bool): char
    requires d < 16
  {
    (if upper then "0123456789ABCDEF" else "0123456789abcdef")[d]
  }

  /** The hyphenated 8-4-4-4-12 form of a UUID. */
  function Hyphenated(u: Uuid, upper: bool): (s: string)
    ensures |s| == 36
    ensures s[8] == s[13] == s[18] == s[23] == '-'
  {
    Hex(u / 0x1_0000_0000_0000_0000_0000_0000, 8, upper) + HyphenatedTail(u, upper)
  }

  /** Everything after the first group: "-xxxx-xxxx-xxxx-xxxxxxxxxxxx". */
  function HyphenatedTail(u: Uuid, upper: bool): (s: string)
    ensures |s| == 28
    ensures s[0] == s[5] == s[10] == s[15] == '-'
  {
    "-" + Hex(u / 0x1_0000_0000_0000_0000_0000, 4, upper)
    + "-" + Hex(u / 0x1_0000_0000_0000_0000, 4, upper)
    + "-" + Hex(u / 0x1_0000_0000_0000, 4, upper)
    + "-" + Hex(u, 12, upper)
  }

  /** Debug of a `Vec<Uuid>`: `[a, b, ...]` with each UUID lower-case and hyphenated. */
  function UuidList(us: seq<Uuid>): string {
    "[" + UuidItems(us) + "]"
  }

  function UuidItems(us: seq<Uuid>): string {
    if us == [] then ""
    else if |us| == 1 then Hyphenated(us[0], false)
    else Hyphenated(us[0], false) + ", " + UuidItems(us[1..])
  }

  /** The names of the flags set in a property byte, joined by " | ". */
  function FlagNames(p: CharPropFlags): string {
    Join(FlagNamesFrom(p, 0))
  }

  const FlagNameTable: seq<string> := [
    "BROADCAST", "READ", "WRITE_WITHOUT_RESPONSE", "WRITE",
    "NOTIFY", "INDICATE", "AUTHENTICATED_SIGNED_WRITES", "EXTENDED_PROPERTIES"]

  function FlagNamesFrom(p: CharPropFlags, bit: nat): seq<string>
    requires bit <= 8
    decreases 8 - bit
  {
    if bit == 8 then []
    else if p & (1 as bv8 << bit) != 0 then [FlagNameTable[bit]] + FlagNamesFrom(p, bit + 1)
    else FlagNamesFrom(p, bit + 1)
  }

  function Join(names: seq<string>): string {
    if names == [] then ""
    else if |names| == 1 then names[0]
    else names[0] + " | " + Join(names[1..])
  }

  function CountText(n: Noun): string {
    match n
    case ServiceNoun => "Expected 2 services, found "
    case CharacteristicNoun => "Expected 2 characteristics, found "
  }

  function NotFoundText(n: Noun): string {
    match n
    case ServiceNoun => "Expected to find service "
    case CharacteristicNoun => "Expected to find characteristic "
  }

  function CountMessage(noun: Noun, n: nat): string {
    CountText(noun) + Decimal(n)
  }

  function NotFoundMessage(noun: Noun, named: Uuid, present: seq<Uuid>): string {
    NotFoundText(noun) + Hyphenated(named, true) + FoundList(present)
  }

  function FoundList(present: seq<Uuid>): string {
    ", found " + UuidList(present)
  }

  /** The Display of the error a failing test case returns. A stack error
      keeps its own text; a count mismatch ends in the count, in decimal
      digits that read back as the count; a "not found" text names a UUID
      right after its prefix, whose first group reads back from the text. */
  function Message(f: Failure): (text: string)
    ensures f.Ble? ==> text == f.error.description
    ensures f.CountMismatch? ==>
              var k := |CountText(f.counted)|;
              |text| > k && text[..k] == CountText(f.counted)
              && (forall i :: k <= i < |text| ==> IsDigit(text[i]))
              && DecimalValue(text[k..]) == f.count
    ensures f.NotFound? ==>
              var k := |NotFoundText(f.sought)|;
              |text| >= k + 36 && text[..k] == NotFoundText(f.sought)
              && HexValue(text[k..k + 8]) == f.named / 0x1_0000_0000_0000_0000_0000_0000
              && text[k + 36..] == ", found " + UuidList(f.present)
  {
    match f
    case Ble(e) => e.description
    case CountMismatch(noun, n) =>
      CountEndsInCount(noun, n);
      CountMessage(noun, n)
    case NotFound(noun, named, present) =>
      NotFoundNamesUuid(noun, named, present);
      NotFoundMessage(noun, named, present)
    case PropertiesMismatch(expected, actual) =>
      "Expected characteristic properties to be " + FlagNames(expected) + ", found " + FlagNames(actual)
  }

  /** A count text is its prefix followed by the count's decimal digits. */
  lemma CountEndsInCount(noun: Noun, n: nat)
    ensures var text := CountMessage(noun, n);
            var k := |CountText(noun)|;
            |text| > k && text[..k] == CountText(noun)
            && (forall i :: k <= i < |text| ==> IsDigit(text[i]))
            && DecimalValue(text[k..]) == n
  {
    var prefix, digits := CountText(noun), Decimal(n);
    DecimalRoundTrip(n);
    Split(prefix, digits);
  }

  lemma Split(a: string, b: string)
    ensures (a + b)[..|a|] == a && (a + b)[|a|..] == b
  {
  }

  function Pow16(w: nat): (r: nat)
    ensures r >= 1
  {
    if w == 0 then 1 else 16 * Pow16(w - 1)
  }

  /** The value of a hexadecimal digit of either case, and -1 for any other character. */
  function HexDigitValue(c: char): int {
    if '0' <= c <= '9' then c as int - '0' as int
    else if 'a' <= c <= 'f' then c as int - 'a' as int + 10
    else if 'A' <= c <= 'F' then c as int - 'A' as int + 10
    else -1
  }

  /** The number a string of hexadecimal digits denotes. */
  function HexValue(s: string): int {
    if s == [] then 0 else 16 * HexValue(s[..|s| - 1]) + HexDigitValue(s[|s| - 1])
  }

  lemma HexValueSnoc(s: string, c: char)
    ensures HexValue(s + [c]) == 16 * HexValue(s) + HexDigitValue(c)
  {
    assert (s + [c])[..|s + [c]| - 1] == s;
  }

  lemma HexDigitOf(d: nat, upper: bool)
    requires d < 16
    ensures HexDigitValue(HexChar(d, upper)) == d
  {
  }

  lemma DivBound(n: nat, d: nat, k: nat)
    requires d > 0 && n < d * k
    ensures n / d < k
  {
  }

  /** Reading back the rendered digits gives the rendered number, so the
      text of a diagnostic determines the value it names. */
  lemma {:induction false} HexRoundTrip(n: nat, w: nat, upper: bool)
    requires n < Pow16(w)
    ensures HexValue(Hex(n, w, upper)) == n
  {
    if w > 0 {
      var q := n / 16;
      DivBound(n, 16, Pow16(w - 1));
      HexRoundTrip(q, w - 1, upper);
      var high, last := Hex(q, w - 1, upper), HexChar(n % 16, upper);
      assert Hex(n, w, upper) == high + [last];
      HexValueSnoc(high, last);
      HexDigitOf(n % 16, upper);
    }
  }

  /** The first group of a UUID written as its top 32 bits and the rest. */
  lemma TopGroup(u: Uuid, top: nat, low: nat)
    requires low < 0x1_0000_0000_0000_0000_0000_0000
    requires u == top * 0x1_0000_0000_0000_0000_0000_0000 + low
    ensures u / 0x1_0000_0000_0000_0000_0000_0000 == top
  {
  }

  /** The first group of the hyphenated form names the top 32 bits of the UUID. */
  lemma HyphenatedFirstGroup(u: Uuid, upper: bool)
    ensures HexValue(Hyphenated(u, upper)[..8]) == u / 0x1_0000_0000_0000_0000_0000_0000
  {
    var top := u / 0x1_0000_0000_0000_0000_0000_0000;
    assert Hyphenated(u, upper)[..8] == Hex(top, 8, upper);
    assert Pow16(8) == 0x1_0000_0000;
    DivBound(u, 0x1_0000_0000_0000_0000_0000_0000, 0x1_0000_0000);
    HexRoundTrip(top, 8, upper);
  }

  /** A "not found" text names a UUID right after its fixed prefix: the
      eight digits there read back as the first group of `named`. */
  lemma NotFoundNamesUuid(noun: Noun, named: Uuid, present: seq<Uuid>)
    ensures var text := NotFoundMessage(noun, named, present);
            var k := |NotFoundText(noun)|;
            |text| >= k + 36 && text[..k] == NotFoundText(noun)
            && HexValue(text[k..k + 8]) == named / 0x1_0000_0000_0000_0000_0000_0000
            && text[k + 36..] == ", found " + UuidList(present)
  {
    var prefix, hyphenated := NotFoundText(noun), Hyphenated(named, true);
    Middle(prefix, hyphenated, FoundList(present));
    HyphenatedFirstGroup(named, true);
  }

  lemma Middle(a: string, b: string, c: string)
    requires |b| >= 8
    ensures |a + b + c| >= |a| + |b|
    ensures (a + b + c)[..|a|] == a
    ensures (a + b + c)[|a|..|a| + 8] == b[..8]
    ensures (a + b + c)[|a| + |b|..] == c
  {
    var t := a + b + c;
    assert t[..|a|] == a;
    forall i | 0 <= i < 8 ensures t[|a| + i] == b[i] { }
  }

  /** The items of a UUID list: 36 characters per UUID and ", " between
      two, so item j is the 36 characters from 38 * j on. */
  lemma {:induction false} ItemsAt(us: seq<Uuid>)
    ensures us != [] ==> |UuidItems(us)| + 2 == 38 * |us|
    ensures forall j :: 0 <= j < |us| ==> 38 * j + 36 <= |UuidItems(us)|
    ensures forall j :: 0 <= j < |us| ==> UuidItems(us)[38 * j..38 * j + 36] == Hyphenated(us[j], false)
    decreases |us|
  {
    if |us| == 1 {
      assert UuidItems(us) == Hyphenated(us[0], false);
    } else if |us| > 1 {
      var head, tail := Hyphenated(us[0], false) + ", ", UuidItems(us[1..]);
      ItemsAt(us[1..]);
      assert UuidItems(us) == head + tail;
      forall j | 0 <= j < |us|
        ensures UuidItems(us)[38 * j..38 * j + 36] == Hyphenated(us[j], false)
      {
        if j == 0 {
          Slice(head, tail, 0, 36);
        } else {
          Slice(head, tail, 38 * (j - 1) + 38, 36);
          assert us[j] == us[1..][j - 1];
        }
      }
    }
  }

  /** A slice of `a + b` that lies inside `a`, or inside `b`. */
  lemma Slice(a: string, b: string, i: nat, n: nat)
    requires i + n <= |a + b|
    requires i + n <= |a| || |a| <= i
    ensures i + n <= |a| ==> (a + b)[i..i + n] == a[i..i + n]
    ensures |a| <= i ==> (a + b)[i..i + n] == b[i - |a|..i - |a| + n]
  {
  }

  /** A UUID list is bracketed, and item j, from 1 + 38 * j on, is the j-th
      UUID hyphenated in lower case, whose first group reads back. */
  lemma ListedUuid(us: seq<Uuid>, j: nat)
    requires j < |us|
    ensures var text, at := UuidList(us), 1 + 38 * j;
            text[0] == '[' && text[|text| - 1] == ']' && |text| == 38 * |us|
            && text[at..at + 36] == Hyphenated(us[j], false)
            && HexValue(text[at..at + 8]) == us[j] / 0x1_0000_0000_0000_0000_0000_0000
  {
    ListItem(us, j);
    HyphenatedFirstGroup(us[j], false);
  }

  lemma ListItem(us: seq<Uuid>, j: nat)
    requires j < |us|
    ensures var text, at := UuidList(us), 1 + 38 * j;
            text[0] == '[' && text[|text| - 1] == ']' && |text| == 38 * |us| && at + 36 <= |text|
            && text[at..at + 36] == Hyphenated(us[j], false)
            && text[at..at + 8] == Hyphenated(us[j], false)[..8]
  {
    var items := UuidItems(us);
    ItemsAt(us);
    Slice("[", items + "]", 1 + 38 * j, 36);
    Slice(items, "]", 38 * j, 36);
    assert UuidList(us) == "[" + (items + "]");
    Prefix(UuidList(us), 1 + 38 * j, Hyphenated(us[j], false), 8);
  }

  lemma Prefix(s: string, at: nat, t: string, n: nat)
    requires at + |t| <= |s| && n <= |t|
    requires s[at..at + |t|] == t
    ensures s[at..at + n] == t[..n]
  {
  }
}
