/** Which IP addresses are public (src/server/public-address.ts). `isIP` is given by the text forms it accepts; a
    bitwise or of a number and a smaller low part is their sum. */
module PublicAddress {
  import opened RunLog
  import opened Powers
  import opened Decimal

  // ---- Positional numbers ----

  /** `reduce((value, digit) => (value << width) | digit, 0)` */
  function Positional(digits: seq<nat>, width: nat): nat {
    if digits == [] then 0 else Positional(digits[..|digits| - 1], width) * Pow2(width) + digits[|digits| - 1]
  }

  predicate Below(digits: seq<nat>, width: nat) {
    forall i :: 0 <= i < |digits| ==> digits[i] < Pow2(width)
  }

  lemma ShiftedTwice(value: nat, m: nat, n: nat)
    ensures Shifted(value, m + n) == Shifted(Shifted(value, m), n)
  {
    PowAdds(m, n);
    QuotientOfQuotient(value, Pow2(m), Pow2(n));
  }

  lemma DropsLast(value: nat, rest: nat, last: nat, width: nat)
    requires value == rest * Pow2(width) + last && last < Pow2(width)
    ensures Shifted(value, width) == rest
  {
    QuotientIs(value, Pow2(width), rest);
  }

  /** The leading digits are a quotient. */
  lemma {:induction false} LeadingDigits(digits: seq<nat>, width: nat, k: nat)
    requires Below(digits, width) && k <= |digits|
    ensures Shifted(Positional(digits, width), width * (|digits| - k)) == Positional(digits[..k], width)
  {
    var n := |digits|;
    if k == n {
      assert digits[..k] == digits && width * 0 == 0;
    } else {
      var rest := digits[..n - 1];
      assert rest[..k] == digits[..k];
      LeadingDigits(rest, width, k);
      DropsLast(Positional(digits, width), Positional(rest, width), digits[n - 1], width);
      assert width * (n - k) == width + width * (n - 1 - k);
      ShiftedTwice(Positional(digits, width), width, width * (n - 1 - k));
    }
  }

  /** Digits below the base are determined by their number. */
  lemma {:induction false} PositionalIsInjective(a: seq<nat>, b: seq<nat>, width: nat)
    requires Below(a, width) && Below(b, width) && |a| == |b|
    ensures Positional(a, width) == Positional(b, width) <==> a == b
  {
    if a != [] {
      var n, p := |a| - 1, Pow2(width);
      PositionalIsInjective(a[..n], b[..n], width);
      QuotientIs(Positional(a, width), p, Positional(a[..n], width));
      QuotientIs(Positional(b, width), p, Positional(b[..n], width));
      assert a == a[..n] + [a[n]] && b == b[..n] + [b[n]];
    }
  }

  // ---- Ranges ----

  /** `value >> n` */
  function Shifted(value: nat, n: nat): nat {
    QuotientIsNat(value, Pow2(n));
    value / Pow2(n)
  }

  predicate InRange(value: nat, base: nat, prefix: nat, bits: nat)
    requires prefix <= bits
  {
    Shifted(value, bits - prefix) == Shifted(base, bits - prefix)
  }

  /** For an aligned base the shift test is membership of its interval. */
  lemma InRangeIsInterval(value: nat, base: nat, prefix: nat, bits: nat)
    requires prefix <= bits && base % Pow2(bits - prefix) == 0
    ensures InRange(value, base, prefix, bits) <==> base <= value < base + Pow2(bits - prefix)
  {
    var p := Pow2(bits - prefix);
    assert base == base / p * p;
    QuotientIs(value, p, base / p);
  }

  /** Only the leading bits up to `width` matter to a prefix no longer than that. */
  lemma InRangeOfTop(value: nat, base: nat, prefix: nat, width: nat, bits: nat)
    requires prefix <= width <= bits
    ensures InRange(value, base, prefix, bits) <==>
      InRange(Shifted(value, bits - width), Shifted(base, bits - width), prefix, width)
  {
    ShiftedTwice(value, bits - width, width - prefix);
    ShiftedTwice(base, bits - width, width - prefix);
  }

  // ---- Texts ----

  function Split(s: string, separator: char): (parts: seq<string>)
    ensures |parts| >= 1
  {
    if s == "" then [""]
    else
      var parts := Split(s[1..], separator);
      if s[0] == separator then [""] + parts else [[s[0]] + parts[0]] + parts[1..]
  }

  function Join(parts: seq<string>, separator: char): string {
    if parts == [] then ""
    else if |parts| == 1 then parts[0]
    else parts[0] + [separator] + Join(parts[1..], separator)
  }

  lemma {:induction false} SplitOfPart(part: string, rest: string, separator: char)
    requires separator !in part
    ensures Split(part + [separator] + rest, separator) == [part] + Split(rest, separator)
    ensures Split(part, separator) == [part]
  {
    var s := part + [separator] + rest;
    if part == "" {
      assert s[1..] == rest;
    } else {
      assert s[1..] == part[1..] + [separator] + rest;
      SplitOfPart(part[1..], rest, separator);
      assert part == [part[0]] + part[1..];
    }
  }

  lemma {:induction false} SplitInvertsJoin(parts: seq<string>, separator: char)
    requires parts != [] && forall p :: p in parts ==> separator !in p
    ensures Split(Join(parts, separator), separator) == parts
  {
    assert parts[0] in parts;
    if |parts| == 1 {
      SplitOfPart(parts[0], "", separator);
    } else {
      SplitInvertsJoin(parts[1..], separator);
      SplitOfPart(parts[0], Join(parts[1..], separator), separator);
      assert parts == [parts[0]] + parts[1..];
    }
  }

  // ---- IPv4 ----

  function Dotted(bytes: seq<nat>): string {
    Join(Texts(bytes), '.')
  }

  function Texts(bytes: seq<nat>): (r: seq<string>)
    ensures |r| == |bytes| && forall i :: 0 <= i < |r| ==> r[i] == Print(bytes[i])
  {
    seq(|bytes|, i requires 0 <= i < |bytes| => Print(bytes[i]))
  }

  predicate FourBytes(bytes: seq<nat>) {
    |bytes| == 4 && forall i :: 0 <= i < 4 ==> bytes[i] < 256
  }

  /** `isIP(s) === 4`: four canonical decimals below 256. */
  ghost predicate IsIpv4(s: string) {
    exists bytes :: FourBytes(bytes) && s == Dotted(bytes)
  }

  function DecimalOf(s: string): nat {
    if forall i :: 0 <= i < |s| ==> IsDigit(s[i]) then Number(s) else 0
  }

  function Numbers(texts: seq<string>, number: string -> nat): (r: seq<nat>)
    ensures |r| == |texts| && forall i :: 0 <= i < |r| ==> r[i] == number(texts[i])
  {
    seq(|texts|, i requires 0 <= i < |texts| => number(texts[i]))
  }

  function Ipv4Value(address: string): nat {
    Positional(Numbers(Split(address, '.'), DecimalOf), 8)
  }

  lemma PrintedHasNo(n: nat, c: char)
    requires !IsDigit(c)
    ensures c !in Print(n)
  {
  }

  lemma Ipv4ValueOfText(bytes: seq<nat>)
    requires bytes != []
    ensures Ipv4Value(Dotted(bytes)) == Positional(bytes, 8)
  {
    var texts := Texts(bytes);
    forall t | t in texts ensures '.' !in t {
      var i :| 0 <= i < |bytes| && texts[i] == t;
      PrintedHasNo(bytes[i], '.');
    }
    SplitInvertsJoin(texts, '.');
    forall i | 0 <= i < |bytes| ensures DecimalOf(texts[i]) == bytes[i] {
      PrintIsCanonical(bytes[i]);
    }
    assert Numbers(texts, DecimalOf) == bytes;
  }

  datatype Block = Block(base: seq<nat>, prefix: nat)

  const BLOCKED_V4: seq<Block> := [
    Block([0, 0, 0, 0], 8), Block([10, 0, 0, 0], 8), Block([100, 64, 0, 0], 10),
    Block([127, 0, 0, 0], 8), Block([169, 254, 0, 0], 16), Block([172, 16, 0, 0], 12),
    Block([192, 0, 0, 0], 24), Block([192, 0, 2, 0], 24), Block([192, 88, 99, 0], 24),
    Block([192, 168, 0, 0], 16), Block([198, 18, 0, 0], 15), Block([198, 51, 100, 0], 24),
    Block([203, 0, 113, 0], 24), Block([224, 0, 0, 0], 4), Block([240, 0, 0, 0], 4),
    Block([168, 63, 129, 16], 32)]

  predicate InBlock(value: nat, b: Block) {
    b.prefix <= 32 && InRange(value, Ipv4Value(Dotted(b.base)), b.prefix, 32)
  }

  // ---- IPv6 ----

  predicate IsHexDigit(c: char) {
    '0' <= c <= '9' || 'a' <= c <= 'f' || 'A' <= c <= 'F'
  }

  function HexDigit(c: char): (d: nat)
    ensures d < 16
  {
    if '0' <= c <= '9' then c as int - '0' as int
    else if 'a' <= c <= 'f' then c as int - 'a' as int + 10
    else if 'A' <= c <= 'F' then c as int - 'A' as int + 10
    else 0
  }

  function HexOf(s: string): nat {
    if s == "" then 0 else HexOf(s[..|s| - 1]) * 16 + HexDigit(s[|s| - 1])
  }

  predicate IsGroup(s: string) {
    1 <= |s| <= 4 && forall i :: 0 <= i < |s| ==> IsHexDigit(s[i])
  }

  predicate AreGroups(groups: seq<string>) {
    forall g :: g in groups ==> IsGroup(g)
  }

  /** The text forms of section 2.2 of RFC 4291, without dots: all eight groups, or `::` for one or more zero groups. */
  datatype Form = Full(groups: seq<string>) | Compressed(head: seq<string>, tail: seq<string>)

  predicate Valid(f: Form) {
    match f
    case Full(groups) => |groups| == 8 && AreGroups(groups)
    case Compressed(head, tail) => |head| + |tail| <= 7 && AreGroups(head) && AreGroups(tail)
  }

  const DOUBLE := "::"

  function Render(f: Form): string {
    match f
    case Full(groups) => Join(groups, ':')
    case Compressed(head, tail) => Join(head, ':') + DOUBLE + Join(tail, ':')
  }

  /** `isIP(s) === 6` for a text without dots or zone. */
  ghost predicate IsIpv6(s: string) {
    exists f :: Valid(f) && s == Render(f)
  }

  /** `split("::")` */
  function SplitDouble(s: string): (parts: seq<string>)
    ensures |parts| >= 1
  {
    if |s| < 2 then [s]
    else if s[0] == ':' && s[1] == ':' then [""] + SplitDouble(s[2..])
    else
      var parts := SplitDouble(s[1..]);
      [[s[0]] + parts[0]] + parts[1..]
  }

  function Zeros(n: int): (r: seq<string>)
    ensures |r| == if n < 0 then 0 else n
    ensures forall i :: 0 <= i < |r| ==> r[i] == "0"
  {
    if n <= 0 then [] else ["0"] + Zeros(n - 1)
  }

  function GroupsOf(side: string): seq<string> {
    if side == "" then [] else Split(side, ':')
  }

  function Expanded(address: string): seq<string> {
    var parts := SplitDouble(address);
    var head := GroupsOf(parts[0]);
    if |parts| == 1 then head
    else
      var tail := GroupsOf(parts[1]);
      head + Zeros(8 - |head| - |tail|) + tail
  }

  function Ipv6Value(address: string): nat {
    Positional(Numbers(Expanded(address), HexOf), 16)
  }

  // ---- What a text form means ----

  /** Its eight groups. */
  function Groups(f: Form): (r: seq<string>)
    requires Valid(f)
    ensures |r| == 8
  {
    match f
    case Full(groups) => groups
    case Compressed(head, tail) => head + Zeros(8 - |head| - |tail|) + tail
  }

  function Address(f: Form): (r: seq<nat>)
    requires Valid(f)
    ensures |r| == 8
  {
    Numbers(Groups(f), HexOf)
  }

  lemma {:induction false} HexIsBelow(s: string)
    ensures HexOf(s) < Pow2(4 * |s|)
  {
    if s != "" {
      HexIsBelow(s[..|s| - 1]);
      PowAdds(4 * (|s| - 1), 4);
      assert 4 * (|s| - 1) + 4 == 4 * |s|;
      assert Pow2(4) == 16 by { SmallPowers(); }
      Scales(HexOf(s[..|s| - 1]) + 1, Pow2(4 * (|s| - 1)), 16);
    }
  }

  lemma GroupIsBelow(s: string)
    requires IsGroup(s)
    ensures HexOf(s) < Pow2(16)
  {
    HexIsBelow(s);
    PowGrows(4 * |s|, 16);
  }

  lemma AddressIsBelow(f: Form)
    requires Valid(f)
    ensures Below(Address(f), 16)
  {
    forall i | 0 <= i < 8 ensures Address(f)[i] < Pow2(16) {
      var g := Groups(f)[i];
      assert g in Groups(f);
      if g == "0" { assert HexOf("0") == 0; } else { GroupIsBelow(g); }
    }
  }

  // ---- The expansion ----

  /** No colon at either end and no two in a row. */
  predicate Tight(s: string) {
    && (s != "" ==> s[0] != ':' && s[|s| - 1] != ':')
    && forall i :: 0 <= i < |s| - 1 ==> !(s[i] == ':' && s[i + 1] == ':')
  }

  lemma GroupHasNoColon(g: string)
    requires IsGroup(g)
    ensures ':' !in g && '.' !in g
  {
  }

  lemma {:induction false} JoinedIsTight(groups: seq<string>)
    requires AreGroups(groups)
    ensures Tight(Join(groups, ':')) && (groups != [] ==> Join(groups, ':') != "")
    ensures '.' !in Join(groups, ':')
  {
    if groups != [] {
      assert groups[0] in groups;
      GroupHasNoColon(groups[0]);
      if |groups| > 1 {
        var first, rest := groups[0], Join(groups[1..], ':');
        assert forall g :: g in groups[1..] ==> g in groups;
        JoinedIsTight(groups[1..]);
        var s := first + [':'] + rest;
        assert s == Join(groups, ':');
        forall i | 0 <= i < |s| - 1 ensures !(s[i] == ':' && s[i + 1] == ':') {
          if i > |first| { assert s[i] == rest[i - |first| - 1] && s[i + 1] == rest[i - |first|]; }
        }
      }
    }
  }

  lemma {:induction false} TightIsOnePart(s: string)
    requires Tight(s)
    ensures SplitDouble(s) == [s]
  {
    if |s| >= 2 {
      SuffixHasNoDouble(s[1..]);
      assert s == [s[0]] + s[1..];
    }
  }

  lemma {:induction false} SuffixHasNoDouble(s: string)
    requires forall i :: 0 <= i < |s| - 1 ==> !(s[i] == ':' && s[i + 1] == ':')
    ensures SplitDouble(s) == [s]
  {
    if |s| >= 2 {
      assert !(s[0] == ':' && s[1] == ':');
      forall i | 0 <= i < |s[1..]| - 1 ensures !(s[1..][i] == ':' && s[1..][i + 1] == ':') {
        assert s[1..][i] == s[i + 1] && s[1..][i + 1] == s[i + 2];
      }
      SuffixHasNoDouble(s[1..]);
      assert s == [s[0]] + s[1..];
    }
  }

  /** The double colon is found where it was written. */
  lemma {:induction false} SplitsAtDouble(left: string, right: string)
    requires forall i :: 0 <= i < |left| - 1 ==> !(left[i] == ':' && left[i + 1] == ':')
    requires left != "" ==> left[|left| - 1] != ':'
    ensures SplitDouble(left + DOUBLE + right) == [left] + SplitDouble(right)
  {
    var s := left + DOUBLE + right;
    if left == "" {
      assert s[2..] == right;
    } else {
      var rest := left[1..];
      forall i | 0 <= i < |rest| - 1 ensures !(rest[i] == ':' && rest[i + 1] == ':') {
        assert rest[i] == left[i + 1] && rest[i + 1] == left[i + 2];
      }
      SplitsAtDouble(rest, right);
      assert s[1..] == rest + DOUBLE + right;
      assert !(s[0] == ':' && s[1] == ':') by {
        if |left| > 1 { assert s[0] == left[0] && s[1] == left[1]; }
      }
      assert left == [left[0]] + rest;
    }
  }

  lemma GroupsOfJoined(groups: seq<string>)
    requires AreGroups(groups)
    ensures GroupsOf(Join(groups, ':')) == groups
  {
    JoinedIsTight(groups);
    if groups != [] {
      forall g | g in groups ensures ':' !in g { GroupHasNoColon(g); }
      SplitInvertsJoin(groups, ':');
    }
  }

  lemma SplitsInTwo(head: seq<string>, tail: seq<string>, left: string, right: string)
    requires AreGroups(head) && AreGroups(tail) && left == Join(head, ':') && right == Join(tail, ':')
    ensures SplitDouble(left + DOUBLE + right) == [left] + [right]
  {
    JoinedIsTight(head);
    JoinedIsTight(tail);
    SplitsAtDouble(left, right);
    TightIsOnePart(right);
  }

  lemma TwoSides(text: string, left: string, right: string, head: seq<string>, tail: seq<string>)
    requires SplitDouble(text) == [left] + [right] && GroupsOf(left) == head && GroupsOf(right) == tail
    ensures Expanded(text) == head + Zeros(8 - |head| - |tail|) + tail
  {
  }

  /** Every text form expands to exactly its eight groups. */
  lemma ExpandsToEight(f: Form)
    requires Valid(f)
    ensures Expanded(Render(f)) == Groups(f) && |Expanded(Render(f))| == 8
  {
    if f.Full? {
      FullExpands(f.groups, Render(f));
    } else {
      CompressedExpands(f.head, f.tail, Join(f.head, ':'), Join(f.tail, ':'));
    }
  }

  lemma FullExpands(groups: seq<string>, text: string)
    requires AreGroups(groups) && text == Join(groups, ':')
    ensures Expanded(text) == groups
  {
    OnePart(groups, text);
    GroupsOfJoined(groups);
  }

  lemma OnePart(groups: seq<string>, text: string)
    requires AreGroups(groups) && text == Join(groups, ':')
    ensures SplitDouble(text) == [text]
  {
    JoinedIsTight(groups);
    TightIsOnePart(text);
  }

  lemma CompressedExpands(head: seq<string>, tail: seq<string>, left: string, right: string)
    requires AreGroups(head) && AreGroups(tail) && left == Join(head, ':') && right == Join(tail, ':')
    ensures Expanded(left + DOUBLE + right) == head + Zeros(8 - |head| - |tail|) + tail
  {
    SplitsInTwo(head, tail, left, right);
    JoinedSide(head, left);
    JoinedSide(tail, right);
    TwoSides(left + DOUBLE + right, left, right, head, tail);
  }

  lemma JoinedSide(groups: seq<string>, side: string)
    requires AreGroups(groups) && side == Join(groups, ':')
    ensures GroupsOf(side) == groups
  {
    GroupsOfJoined(groups);
  }

  /** Two texts have the same number exactly when they write the same address, however either is compressed. */
  lemma SameAddressSameNumber(f: Form, g: Form)
    requires Valid(f) && Valid(g)
    ensures Ipv6Value(Render(f)) == Ipv6Value(Render(g)) <==> Address(f) == Address(g)
  {
    ExpandsToEight(f);
    ExpandsToEight(g);
    AddressIsBelow(f);
    AddressIsBelow(g);
    PositionalIsInjective(Address(f), Address(g), 16);
  }

  // ---- The two classifiers ----

  datatype Prefix = Prefix(head: seq<string>, length: nat)

  const GLOBAL_UNICAST := Prefix(["2000"], 3)
  const PROTOCOL_ASSIGNMENTS := Prefix(["2001"], 23)
  const DOCUMENTATION := Prefix(["2001", "db8"], 32)
  const SIX_TO_FOUR := Prefix(["2002"], 16)
  const SIX_BONE := Prefix(["3ffe"], 16)
  const MORE_DOCUMENTATION := Prefix(["3fff"], 20)

  predicate InPrefix(value: nat, p: Prefix) {
    p.length <= 128 && InRange(value, Ipv6Value(Render(Compressed(p.head, []))), p.length, 128)
  }

  predicate PublicV4(value: nat) {
    forall i :: 0 <= i < |BLOCKED_V4| ==> !InBlock(value, BLOCKED_V4[i])
  }

  predicate PublicV6(value: nat) {
    && InPrefix(value, GLOBAL_UNICAST)
    && !InPrefix(value, PROTOCOL_ASSIGNMENTS)
    && !InPrefix(value, DOCUMENTATION)
    && !InPrefix(value, SIX_TO_FOUR)
    && !InPrefix(value, SIX_BONE)
    && !InPrefix(value, MORE_DOCUMENTATION)
  }

  /** Any other text is not an address, or has dots or a zone, and is refused. */
  ghost predicate PublicAddress(address: string) {
    if IsIpv4(address) then PublicV4(Ipv4Value(address))
    else IsIpv6(address) && PublicV6(Ipv6Value(address))
  }

  const LOOPBACK_V4 := Block([127, 0, 0, 0], 8)

  ghost predicate LoopbackAddress(address: string) {
    (IsIpv4(address) && InBlock(Ipv4Value(address), LOOPBACK_V4)) || (IsIpv6(address) && Ipv6Value(address) == 1)
  }

  lemma Ipv6IsNotIpv4(f: Form)
    requires Valid(f)
    ensures !IsIpv4(Render(f)) && IsIpv6(Render(f))
  {
    if f.Full? {
      JoinedIsTight(f.groups);
    } else {
      JoinedIsTight(f.head);
      JoinedIsTight(f.tail);
    }
    forall bytes | FourBytes(bytes) ensures Render(f) != Dotted(bytes) {
      assert Dotted(bytes) == Print(bytes[0]) + ['.'] + Join(Texts(bytes)[1..], '.');
      assert '.' in Dotted(bytes);
    }
  }

  lemma Ipv4IsNotIpv6(bytes: seq<nat>)
    requires FourBytes(bytes)
    ensures IsIpv4(Dotted(bytes)) && !IsIpv6(Dotted(bytes))
  {
    forall f | Valid(f) ensures Dotted(bytes) != Render(f) {
      Ipv6IsNotIpv4(f);
    }
  }

  // ---- Which IPv4 addresses are public ----

  function Base(bytes: seq<nat>): nat
    requires |bytes| == 4
  {
    bytes[0] * 0x100_0000 + bytes[1] * 0x1_0000 + bytes[2] * 0x100 + bytes[3]
  }

  lemma FourDigits(bytes: seq<nat>)
    requires |bytes| == 4
    ensures Ipv4Value(Dotted(bytes)) == Base(bytes)
  {
    Ipv4ValueOfText(bytes);
    SmallPowers();
    var abc, ab, a := bytes[..3], bytes[..2], bytes[..1];
    assert abc[..2] == ab && ab[..1] == a && a[..0] == [];
    assert Positional(a, 8) == bytes[0];
    assert Positional(ab, 8) == Positional(a, 8) * 256 + bytes[1];
    assert Positional(abc, 8) == Positional(ab, 8) * 256 + bytes[2];
  }

  lemma InBlockIs(value: nat, k: Block, size: nat)
    requires |k.base| == 4 && k.prefix <= 32 && size == Pow2(32 - k.prefix) && Base(k.base) % size == 0
    ensures InBlock(value, k) <==> Base(k.base) <= value < Base(k.base) + size
  {
    FourDigits(k.base);
    InRangeIsInterval(value, Base(k.base), k.prefix, 32);
  }

  /** What each block of the table takes out, byte by byte. */
  predicate Taken(i: nat, a: nat, b: nat, c: nat, d: nat) {
    if i == 0 then a == 0
    else if i == 1 then a == 10
    else if i == 2 then a == 100 && 64 <= b <= 127
    else if i == 3 then a == 127
    else if i == 4 then a == 169 && b == 254
    else if i == 5 then a == 172 && 16 <= b <= 31
    else if i == 6 then a == 192 && b == 0 && c == 0
    else if i == 7 then a == 192 && b == 0 && c == 2
    else if i == 8 then a == 192 && b == 88 && c == 99
    else if i == 9 then a == 192 && b == 168
    else if i == 10 then a == 198 && 18 <= b <= 19
    else if i == 11 then a == 198 && b == 51 && c == 100
    else if i == 12 then a == 203 && b == 0 && c == 113
    else if i == 13 then 224 <= a <= 239
    else if i == 14 then a >= 240
    else a == 168 && b == 63 && c == 129 && d == 16
  }

  function SizeOf(prefix: nat): nat {
    if prefix == 4 then 0x1000_0000
    else if prefix == 8 then 0x100_0000
    else if prefix == 10 then 0x40_0000
    else if prefix == 12 then 0x10_0000
    else if prefix == 15 then 0x2_0000
    else if prefix == 16 then 0x1_0000
    else if prefix == 24 then 0x100
    else 1
  }

  lemma SizesOfBlocks(i: nat)
    requires i < 16
    ensures var k := BLOCKED_V4[i];
            && |BLOCKED_V4| == 16 && |k.base| == 4 && k.prefix <= 32
            && SizeOf(k.prefix) == Pow2(32 - k.prefix) && Base(k.base) % SizeOf(k.prefix) == 0
  {
    SmallPowers();
  }

  function Lowest(i: nat): nat {
    if i == 0 then 0 else if i == 1 then 0xA00_0000 else if i == 2 then 0x6440_0000 else if i == 3 then 0x7F00_0000
    else if i == 4 then 0xA9FE_0000 else if i == 5 then 0xAC10_0000 else if i == 6 then 0xC000_0000
    else if i == 7 then 0xC000_0200 else if i == 8 then 0xC058_6300 else if i == 9 then 0xC0A8_0000
    else if i == 10 then 0xC612_0000 else if i == 11 then 0xC633_6400 else if i == 12 then 0xCB00_7100
    else if i == 13 then 0xE000_0000 else if i == 14 then 0xF000_0000 else 0xA83F_8110
  }

  function Highest(i: nat): nat {
    if i == 0 then 0x100_0000 else if i == 1 then 0xB00_0000 else if i == 2 then 0x6480_0000 else if i == 3 then 0x8000_0000
    else if i == 4 then 0xA9FF_0000 else if i == 5 then 0xAC20_0000 else if i == 6 then 0xC000_0100
    else if i == 7 then 0xC000_0300 else if i == 8 then 0xC058_6400 else if i == 9 then 0xC0A9_0000
    else if i == 10 then 0xC614_0000 else if i == 11 then 0xC633_6500 else if i == 12 then 0xCB00_7200
    else if i == 13 then 0xF000_0000 else if i == 14 then 0x1_0000_0000 else 0xA83F_8111
  }

  /** The table in numbers. */
  lemma BlockSpans(i: nat, value: nat)
    requires i < 16
    ensures InBlock(value, BLOCKED_V4[i]) <==> Lowest(i) <= value < Highest(i)
  {
    SizesOfBlocks(i);
    var k := BLOCKED_V4[i];
    BoundsOfBlocks(i);
    InBlockIs(value, k, SizeOf(k.prefix));
  }

  lemma BoundsOfBlocks(i: nat)
    requires i < 16 && |BLOCKED_V4[i].base| == 4
    ensures var k := BLOCKED_V4[i]; Base(k.base) == Lowest(i) && Base(k.base) + SizeOf(k.prefix) == Highest(i)
  {
  }

  lemma SpanIsTaken(i: nat, a: nat, b: nat, c: nat, d: nat, value: nat)
    requires i < 16 && a < 256 && b < 256 && c < 256 && d < 256
    requires value == a * 0x100_0000 + b * 0x1_0000 + c * 0x100 + d
    ensures Lowest(i) <= value < Highest(i) <==> Taken(i, a, b, c, d)
  {
  }

  lemma BlockTakes(i: nat, a: nat, b: nat, c: nat, d: nat)
    requires i < 16 && a < 256 && b < 256 && c < 256 && d < 256
    ensures InBlock(Base([a, b, c, d]), BLOCKED_V4[i]) <==> Taken(i, a, b, c, d)
  {
    var value := Base([a, b, c, d]);
    BlockSpans(i, value);
    SpanIsTaken(i, a, b, c, d, value);
  }

  /** The reserved IPv4 ranges. */
  predicate Reserved(a: nat, b: nat, c: nat, d: nat) {
    exists i: nat :: i < 16 && Taken(i, a, b, c, d)
  }

  /** An IPv4 address is public exactly when it lies in none of the reserved ranges. */
  lemma PublicIpv4(a: nat, b: nat, c: nat, d: nat)
    requires a < 256 && b < 256 && c < 256 && d < 256
    ensures PublicAddress(Dotted([a, b, c, d])) <==> !Reserved(a, b, c, d)
  {
    var bytes := [a, b, c, d];
    Ipv4IsNotIpv6(bytes);
    FourDigits(bytes);
    TableTakes(a, b, c, d);
  }

  lemma TableTakes(a: nat, b: nat, c: nat, d: nat)
    requires a < 256 && b < 256 && c < 256 && d < 256
    ensures PublicV4(Base([a, b, c, d])) <==> !Reserved(a, b, c, d)
  {
    TableTakesEach(Base([a, b, c, d]), BLOCKED_V4, a, b, c, d);
  }

  lemma TableTakesEach(value: nat, table: seq<Block>, a: nat, b: nat, c: nat, d: nat)
    requires a < 256 && b < 256 && c < 256 && d < 256
    requires value == Base([a, b, c, d]) && table == BLOCKED_V4
    ensures (exists i :: 0 <= i < |table| && InBlock(value, table[i])) <==> Reserved(a, b, c, d)
  {
    forall i: nat | i < 16 ensures InBlock(value, table[i]) <==> Taken(i, a, b, c, d) {
      BlockTakes(i, a, b, c, d);
    }
  }

  // ---- Which IPv6 addresses are public ----

  lemma HexOfFour(a: char, b: char, c: char, d: char)
    ensures HexOf([a, b, c, d]) == ((HexDigit(a) * 16 + HexDigit(b)) * 16 + HexDigit(c)) * 16 + HexDigit(d)
    ensures HexOf([a, b, c]) == (HexDigit(a) * 16 + HexDigit(b)) * 16 + HexDigit(c)
  {
    var abcd := [a, b, c, d];
    var abc, ab, one := [a, b, c], [a, b], [a];
    assert abcd[..3] == abc && abc[..2] == ab && ab[..1] == one && one[..0] == "";
    assert HexOf(one) == HexDigit(a);
    assert HexOf(ab) == HexOf(one) * 16 + HexDigit(b);
    assert HexOf(abc) == HexOf(ab) * 16 + HexDigit(c);
  }

  /** The first two groups as one number. */
  function Top(f: Form): nat
    requires Valid(f)
  {
    Address(f)[0] * 0x1_0000 + Address(f)[1]
  }

  lemma TopIsShifted(f: Form)
    requires Valid(f)
    ensures Shifted(Ipv6Value(Render(f)), 96) == Top(f)
  {
    var digits := Address(f);
    ExpandsToEight(f);
    AddressIsBelow(f);
    LeadingDigits(digits, 16, 2);
    SmallPowers();
    var two, one := digits[..2], digits[..1];
    assert two[..1] == one && one[..0] == [];
    assert Positional(one, 16) == digits[0];
  }

  /** A prefix of at most 32 bits is an interval of the first two groups. */
  lemma InPrefixIs(f: Form, p: Prefix, base: nat, size: nat)
    requires Valid(f) && Valid(Compressed(p.head, [])) && p.length <= 32
    requires base == Top(Compressed(p.head, [])) && size == Pow2(32 - p.length) && base % size == 0
    ensures InPrefix(Ipv6Value(Render(f)), p) <==> base <= Top(f) < base + size
  {
    InPrefixIsOnTop(f, p);
    AlignedTo(Top(f), base, p.length, size);
  }

  lemma AlignedTo(top: nat, base: nat, length: nat, size: nat)
    requires length <= 32 && size == Pow2(32 - length) && base % size == 0
    ensures InRange(top, base, length, 32) <==> base <= top < base + size
  {
    InRangeIsInterval(top, base, length, 32);
  }

  lemma InPrefixIsOnTop(f: Form, p: Prefix)
    requires Valid(f) && Valid(Compressed(p.head, [])) && p.length <= 32
    ensures InPrefix(Ipv6Value(Render(f)), p) <==> InRange(Top(f), Top(Compressed(p.head, [])), p.length, 32)
  {
    var origin := Compressed(p.head, []);
    TopIsShifted(f);
    TopIsShifted(origin);
    OnTop(Ipv6Value(Render(f)), Ipv6Value(Render(origin)), p.length);
  }

  lemma OnTop(value: nat, base: nat, length: nat)
    requires length <= 32
    ensures InRange(value, base, length, 128) <==> InRange(Shifted(value, 96), Shifted(base, 96), length, 32)
  {
    InRangeOfTop(value, base, length, 32, 128);
  }

  lemma OneGroup(p: Prefix, group: nat)
    requires |p.head| == 1 && IsGroup(p.head[0]) && HexOf(p.head[0]) == group
    ensures var f := Compressed(p.head, []); Valid(f) && Top(f) == group * 0x1_0000
  {
    assert HexOf("0") == 0;
  }

  lemma OneGroupPrefixIs(f: Form, p: Prefix, a: char, b: char, c: char, d: char, size: nat)
    requires Valid(f) && p.head == [[a, b, c, d]] && p.length <= 32 && size == Pow2(32 - p.length)
    requires IsHexDigit(a) && IsHexDigit(b) && IsHexDigit(c) && IsHexDigit(d)
    requires var group := ((HexDigit(a) * 16 + HexDigit(b)) * 16 + HexDigit(c)) * 16 + HexDigit(d);
             (group * 0x1_0000) % size == 0
    ensures var group := ((HexDigit(a) * 16 + HexDigit(b)) * 16 + HexDigit(c)) * 16 + HexDigit(d);
            InPrefix(Ipv6Value(Render(f)), p) <==> group * 0x1_0000 <= Top(f) < group * 0x1_0000 + size
  {
    HexOfFour(a, b, c, d);
    var group := ((HexDigit(a) * 16 + HexDigit(b)) * 16 + HexDigit(c)) * 16 + HexDigit(d);
    OneGroup(p, group);
    InPrefixIs(f, p, group * 0x1_0000, size);
  }

  lemma DocumentationIs(f: Form)
    requires Valid(f)
    ensures InPrefix(Ipv6Value(Render(f)), DOCUMENTATION) <==> Top(f) == 0x2001_0DB8
  {
    var p := DOCUMENTATION;
    HexOfFour('2', '0', '0', '1');
    HexOfFour('d', 'b', '8', '0');
    TwoGroups(p, 0x2001, 0xDB8);
    InPrefixIs(f, p, 0x2001_0DB8, 1);
  }

  lemma TwoGroups(p: Prefix, first: nat, second: nat)
    requires |p.head| == 2 && IsGroup(p.head[0]) && IsGroup(p.head[1])
    requires HexOf(p.head[0]) == first && HexOf(p.head[1]) == second
    ensures var f := Compressed(p.head, []); Valid(f) && Top(f) == first * 0x1_0000 + second
  {
  }

  lemma UnicastIs(f: Form)
    requires Valid(f)
    ensures InPrefix(Ipv6Value(Render(f)), GLOBAL_UNICAST) <==> 0x2000_0000 <= Top(f) < 0x4000_0000
  {
    assert Pow2(29) == 0x2000_0000 by { SmallPowers(); }
    OneGroupPrefixIs(f, GLOBAL_UNICAST, '2', '0', '0', '0', 0x2000_0000);
  }

  lemma ProtocolAssignmentsIs(f: Form)
    requires Valid(f)
    ensures InPrefix(Ipv6Value(Render(f)), PROTOCOL_ASSIGNMENTS) <==> 0x2001_0000 <= Top(f) < 0x2001_0200
  {
    assert Pow2(9) == 0x200 by { SmallPowers(); }
    OneGroupPrefixIs(f, PROTOCOL_ASSIGNMENTS, '2', '0', '0', '1', 0x200);
  }

  lemma SixToFourIs(f: Form)
    requires Valid(f)
    ensures InPrefix(Ipv6Value(Render(f)), SIX_TO_FOUR) <==> 0x2002_0000 <= Top(f) < 0x2003_0000
  {
    assert Pow2(16) == 0x1_0000 by { SmallPowers(); }
    OneGroupPrefixIs(f, SIX_TO_FOUR, '2', '0', '0', '2', 0x1_0000);
  }

  lemma SixBoneIs(f: Form)
    requires Valid(f)
    ensures InPrefix(Ipv6Value(Render(f)), SIX_BONE) <==> 0x3FFE_0000 <= Top(f) < 0x3FFF_0000
  {
    assert Pow2(16) == 0x1_0000 by { SmallPowers(); }
    OneGroupPrefixIs(f, SIX_BONE, '3', 'f', 'f', 'e', 0x1_0000);
  }

  lemma MoreDocumentationIs(f: Form)
    requires Valid(f)
    ensures InPrefix(Ipv6Value(Render(f)), MORE_DOCUMENTATION) <==> 0x3FFF_0000 <= Top(f) < 0x3FFF_1000
  {
    assert Pow2(12) == 0x1000 by { SmallPowers(); }
    OneGroupPrefixIs(f, MORE_DOCUMENTATION, '3', 'f', 'f', 'f', 0x1000);
  }

  /** An IPv6 address is public exactly when it is global unicast and in none of the excluded ranges. */
  lemma PublicIpv6(f: Form)
    requires Valid(f)
    ensures var g, h := Address(f)[0], Address(f)[1];
            PublicAddress(Render(f)) <==>
              && 0x2000 <= g <= 0x3FFF
              && !(g == 0x2001 && (h < 0x200 || h == 0xDB8))
              && g != 0x2002 && g != 0x3FFE
              && !(g == 0x3FFF && h < 0x1000)
  {
    Ipv6IsNotIpv4(f);
    AddressIsBelow(f);
    assert Pow2(16) == 0x1_0000 by { SmallPowers(); }
    UnicastIs(f);
    ProtocolAssignmentsIs(f);
    DocumentationIs(f);
    SixToFourIs(f);
    SixBoneIs(f);
    MoreDocumentationIs(f);
  }

  // ---- Loopback ----

  lemma LoopbackV4(a: nat, b: nat, c: nat, d: nat)
    requires a < 256 && b < 256 && c < 256 && d < 256
    ensures LoopbackAddress(Dotted([a, b, c, d])) <==> a == 127
  {
    var bytes := [a, b, c, d];
    Ipv4IsNotIpv6(bytes);
    FourDigits(bytes);
    LoopbackIsFourth();
    BlockTakes(3, a, b, c, d);
    assert Taken(3, a, b, c, d) <==> a == 127;
  }

  lemma LoopbackIsFourth()
    ensures BLOCKED_V4[3] == LOOPBACK_V4
  {
  }

  /** ::1 in whatever text. */
  lemma LoopbackV6(f: Form)
    requires Valid(f)
    ensures LoopbackAddress(Render(f)) <==> Address(f) == [0, 0, 0, 0, 0, 0, 0, 1]
  {
    Ipv6IsNotIpv4(f);
    ExpandsToEight(f);
    AddressIsBelow(f);
    var one: seq<nat> := [0, 0, 0, 0, 0, 0, 0, 1];
    assert Positional(one, 16) == 1 && Below(one, 16) by {
      SmallPowers();
      AllZero(one[..7]);
    }
    PositionalIsInjective(Address(f), one, 16);
  }

  lemma {:induction false} AllZero(zeros: seq<nat>)
    requires forall i :: 0 <= i < |zeros| ==> zeros[i] == 0
    ensures Positional(zeros, 16) == 0
  {
    if zeros != [] { AllZero(zeros[..|zeros| - 1]); }
  }

  /** No loopback address is public, nor is any IPv4-mapped one written in groups. */
  lemma NeverPublic(f: Form, a: nat, b: nat, c: nat, d: nat)
    requires Valid(f) && a < 256 && b < 256 && c < 256 && d < 256
    ensures LoopbackAddress(Dotted([a, b, c, d])) ==> !PublicAddress(Dotted([a, b, c, d]))
    ensures LoopbackAddress(Render(f)) ==> !PublicAddress(Render(f))
    ensures Address(f)[..6] == [0, 0, 0, 0, 0, 0xFFFF] ==> !PublicAddress(Render(f))
  {
    LoopbackV4(a, b, c, d);
    LoopbackV6(f);
    PublicIpv4(a, b, c, d);
    assert Taken(3, a, b, c, d) <==> a == 127;
    PublicIpv6(f);
    assert Address(f)[..6][0] == Address(f)[0];
  }
}
