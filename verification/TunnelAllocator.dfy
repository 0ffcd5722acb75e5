/** Allocation of a tunnel address for a new OpenVPN client, and what repeated allocation does. */
module TunnelAllocator {
  import opened Options
  import opened Text

  // ----- Dotted addresses ---------------------------------------------------------------

  const IPV4 := 0x1_0000_0000

  /** The parts of `s` before and after the first `c`. */
  function Cut(s: string, c: char): (r: Option<(string, string)>)
    ensures r.None? <==> c !in s
    ensures r.Some? ==> c !in r.value.0 && s == r.value.0 + [c] + r.value.1
  {
    if s == "" then None
    else if s[0] == c then Some(("", s[1..]))
    else
      var rest := Cut(s[1..], c);
      assert s == [s[0]] + s[1..];
      if rest.None? then None else Some(([s[0]] + rest.value.0, rest.value.1))
  }

  lemma CutJoined(a: string, c: char, b: string)
    requires c !in a
    ensures Cut(a + [c] + b, c) == Some((a, b))
  {
    var s := a + [c] + b;
    assert s[..|a|] == a && s[|a|] == c && s[|a| + 1..] == b;
    var r := Cut(s, c).value;
    assert s[..|r.0|] == r.0 && s[|r.0|] == c && s[|r.0| + 1..] == r.1;
    assert forall i :: 0 <= i < |a| ==> s[i] == a[i] && a[i] in a;
    assert forall i :: 0 <= i < |r.0| ==> s[i] == r.0[i] && r.0[i] in r.0;
    FirstUnique(s, c, |a|, |r.0|);
  }

  predicate NoneBefore(s: string, c: char, n: nat)
    requires n <= |s|
  {
    forall i :: 0 <= i < n ==> s[i] != c
  }

  lemma FirstUnique(s: string, c: char, m: nat, n: nat)
    requires m < |s| && s[m] == c && NoneBefore(s, c, m)
    requires n < |s| && s[n] == c && NoneBefore(s, c, n)
    ensures m == n
  {
  }

  /** A number from 0 to 255, written without leading zeros. */
  function Octet(s: string): Option<nat> {
    if s != "" && AllDigits(s) && |s| <= 3 && (s[0] != '0' || |s| == 1) && Numeral(s) <= 255 then Some(Numeral(s)) else None
  }

  /** The octets of `s` from the left, `n` of them. */
  function Octets(s: string, n: nat): Option<seq<nat>>
    requires n > 0
    decreases n
  {
    if n == 1 then
      if Octet(s).Some? then Some([Octet(s).value]) else None
    else
      var cut := Cut(s, '.');
      if cut.None? || Octet(cut.value.0).None? then None
      else
        var rest := Octets(cut.value.1, n - 1);
        if rest.None? then None else Some([Octet(cut.value.0).value] + rest.value)
  }

  function Ip2Long(s: string): Option<nat> {
    var octets := Octets(s, 4);
    if octets.None? || |octets.value| != 4 then None
    else
      var o := octets.value;
      Some(o[0] * 0x100_0000 + o[1] * 0x1_0000 + o[2] * 0x100 + o[3])
  }

  /** The dotted form of the low 32 bits. */
  function Long2Ip(n: nat): string {
    Decimal(n / 0x100_0000 % 256) + "." + (Decimal(n / 0x1_0000 % 256) + "." + (Decimal(n / 0x100 % 256) + "." + Decimal(n % 256)))
  }

  lemma DecimalShape(n: nat)
    ensures n < 10 ==> |Decimal(n)| == 1
    ensures 10 <= n < 100 ==> |Decimal(n)| == 2
    ensures 100 <= n < 1000 ==> |Decimal(n)| == 3
    ensures n > 0 ==> Decimal(n)[0] != '0'
    ensures '.' !in Decimal(n) && '/' !in Decimal(n)
  {
    if n >= 10 {
      DecimalShape(n / 10);
    }
  }

  lemma OctetOfDecimal(n: nat)
    requires n <= 255
    ensures Octet(Decimal(n)) == Some(n) && '.' !in Decimal(n)
  {
    hide Numeral;
    DecimalShape(n);
  }

  lemma OctetsStep(a: nat, rest: string, n: nat)
    requires a <= 255 && n > 1 && Octets(rest, n - 1).Some?
    ensures Octets(Decimal(a) + "." + rest, n) == Some([a] + Octets(rest, n - 1).value)
  {
    hide Octet, Decimal;
    OctetOfDecimal(a);
    CutJoined(Decimal(a), '.', rest);
  }

  /** Parsing takes back what rendering wrote. */
  lemma {:induction false} AddressRoundTrip(n: nat)
    requires n < IPV4
    ensures Ip2Long(Long2Ip(n)) == Some(n)
  {
    hide Octet, Decimal, Octets;
    var a, b, c, d := n / 0x100_0000 % 256, n / 0x1_0000 % 256, n / 0x100 % 256, n % 256;
    LastOctet(d);
    OctetsStep(c, Decimal(d), 2);
    OctetsStep(b, Decimal(c) + "." + Decimal(d), 3);
    OctetsStep(a, Decimal(b) + "." + (Decimal(c) + "." + Decimal(d)), 4);
    assert [a] + ([b] + ([c] + [d])) == [a, b, c, d];
    OctetsOf(n);
  }

  lemma LastOctet(d: nat)
    requires d <= 255
    ensures Octets(Decimal(d), 1) == Some([d])
  {
    hide Octet, Decimal;
    OctetOfDecimal(d);
  }

  lemma OctetsOf(n: nat)
    requires n < IPV4
    ensures n / 0x100_0000 % 256 * 0x100_0000 + n / 0x1_0000 % 256 * 0x1_0000 + n / 0x100 % 256 * 0x100 + n % 256 == n
  {
  }

  lemma DecimalStep(n: nat, c: char)
    requires n > 0 && IsDigit(c)
    ensures Decimal(n * 10 + DigitValue(c)) == Decimal(n) + [c]
  {
    var m := n * 10 + DigitValue(c);
    assert m / 10 == n && m % 10 == DigitValue(c);
    assert DigitChar(DigitValue(c)) == c;
  }

  /** Without a leading zero, a numeral is the decimal rendering of its value. */
  lemma {:induction false} NumeralBack(s: string)
    requires s != "" && AllDigits(s) && (s[0] != '0' || |s| == 1)
    ensures Decimal(Numeral(s)) == s
    ensures s[0] != '0' ==> Numeral(s) > 0
    decreases |s|
  {
    var front, last := s[..|s| - 1], s[|s| - 1];
    NumeralStep(s);
    hide Numeral, AllDigits;
    if front == "" {
      assert DigitChar(DigitValue(last)) == last;
    } else {
      NumeralBack(front);
      hide Decimal;
      DecimalStep(Numeral(front), last);
    }
  }

  lemma NumeralStep(s: string)
    requires s != "" && AllDigits(s)
    ensures var front, last := s[..|s| - 1], s[|s| - 1];
      && s == front + [last] && AllDigits(front) && IsDigit(last)
      && Numeral(s) == Numeral(front) * 10 + DigitValue(last)
      && (front == "" ==> Numeral(s) == DigitValue(last))
  {
    assert forall c :: c in s[..|s| - 1] ==> c in s;
    assert s[|s| - 1] in s;
  }

  function Dotted(octets: seq<nat>): string
    requires octets != []
  {
    if |octets| == 1 then Decimal(octets[0]) else Decimal(octets[0]) + "." + Dotted(octets[1..])
  }

  lemma {:induction false} OctetsBack(s: string, n: nat)
    requires n > 0 && Octets(s, n).Some?
    ensures var octets := Octets(s, n).value;
      |octets| == n && s == Dotted(octets) && forall o :: o in octets ==> o <= 255
    decreases n
  {
    hide Decimal, Numeral;
    if n == 1 {
      NumeralBack(s);
    } else {
      var cut := Cut(s, '.').value;
      NumeralBack(cut.0);
      OctetsBack(cut.1, n - 1);
      var octets := Octets(s, n).value;
      assert octets[1..] == Octets(cut.1, n - 1).value;
    }
  }

  lemma {:induction false} DottedFour(o: seq<nat>)
    requires |o| == 4
    ensures Dotted(o) == Decimal(o[0]) + "." + (Decimal(o[1]) + "." + (Decimal(o[2]) + "." + Decimal(o[3])))
  {
    hide Decimal;
    var p := o[1..];
    var q := p[1..];
    var t := q[1..];
    assert Dotted(t) == Decimal(o[3]);
    assert Dotted(q) == Decimal(o[2]) + "." + Dotted(t);
    assert Dotted(p) == Decimal(o[1]) + "." + Dotted(q);
  }

  lemma AddressBack(s: string)
    requires Ip2Long(s).Some?
    ensures Ip2Long(s).value < IPV4 && s == Long2Ip(Ip2Long(s).value)
  {
    hide Decimal, Octets, Dotted;
    OctetsBack(s, 4);
    var o := Octets(s, 4).value;
    assert o[0] in o && o[1] in o && o[2] in o && o[3] in o;
    DottedFour(o);
    OctetsFit(o[0], o[1], o[2], o[3]);
  }

  /** Only the rendering of an address is read as that address, and only 32-bit numbers are addresses. */
  lemma AddressIff(s: string, n: nat)
    ensures Ip2Long(s) == Some(n) <==> n < IPV4 && s == Long2Ip(n)
  {
    hide Ip2Long, Long2Ip;
    if Ip2Long(s).Some? {
      AddressBack(s);
    }
    if n < IPV4 {
      AddressRoundTrip(n);
    }
  }

  lemma OctetsFit(a: nat, b: nat, c: nat, d: nat)
    requires a <= 255 && b <= 255 && c <= 255 && d <= 255
    ensures var n := a * 0x100_0000 + b * 0x1_0000 + c * 0x100 + d;
      && n < IPV4
      && n / 0x100_0000 % 256 == a && n / 0x1_0000 % 256 == b && n / 0x100 % 256 == c && n % 256 == d
  {
    var n := a * 0x100_0000 + b * 0x1_0000 + c * 0x100 + d;
    assert n / 0x100_0000 == a;
    Digit256(a, b);
    assert n / 0x1_0000 == a * 256 + b;
    Digit256(a * 256 + b, c);
    assert n / 0x100 == (a * 256 + b) * 256 + c;
    Digit256((a * 256 + b) * 256 + c, d);
  }

  /** The four numbers of an address, the highest first. */
  lemma AddressIsDotted(a: nat, b: nat, c: nat, d: nat)
    requires a <= 255 && b <= 255 && c <= 255 && d <= 255
    ensures Long2Ip(a * 0x100_0000 + b * 0x1_0000 + c * 0x100 + d)
      == Decimal(a) + "." + (Decimal(b) + "." + (Decimal(c) + "." + Decimal(d)))
  {
    hide Decimal;
    OctetsFit(a, b, c, d);
  }

  lemma Digit256(high: nat, low: nat)
    requires low <= 255
    ensures (high * 256 + low) % 256 == low
  {
  }

  // ----- Networks -----------------------------------------------------------------------

  /** What PHP's `trim` drops. */
  predicate IsBlank(c: char) {
    c in " \t\n\r\0\U{B}"
  }

  function TrimPhp(s: string): string
    decreases |s|
  {
    if s != "" && IsBlank(s[0]) then TrimPhp(s[1..])
    else if s != "" && IsBlank(s[|s| - 1]) then TrimPhp(s[..|s| - 1])
    else s
  }

  predicate Blank(s: string) {
    forall c :: c in s ==> IsBlank(c)
  }

  /** Trimming drops blanks from both ends, and all of them. */
  lemma {:induction false} TrimPhpIs(s: string) returns (before: string, after: string)
    ensures s == before + TrimPhp(s) + after && Blank(before) && Blank(after)
    ensures var r := TrimPhp(s); r != "" ==> !IsBlank(r[0]) && !IsBlank(r[|r| - 1])
    decreases |s|
  {
    if s != "" && IsBlank(s[0]) {
      before, after := TrimPhpIs(s[1..]);
      before := [s[0]] + before;
    } else if s != "" && IsBlank(s[|s| - 1]) {
      before, after := TrimPhpIs(s[..|s| - 1]);
      after := after + [s[|s| - 1]];
    } else {
      before, after := "", "";
    }
  }

  predicate AddressLike(s: string) {
    s != "" && forall c :: c in s ==> IsDigit(c) || c == '.'
  }

  /** `address/digits`, after trimming. */
  function Network(text: string): Option<(string, string)> {
    var cut := Cut(TrimPhp(text), '/');
    if cut.Some? && AddressLike(cut.value.0) && cut.value.1 != "" && AllDigits(cut.value.1) then cut else None
  }

  function Written(address: nat, prefix: nat): string {
    Long2Ip(address) + "/" + Decimal(prefix)
  }

  lemma DottedShape(a: string, b: string)
    requires AddressLike(a) && AddressLike(b)
    ensures AddressLike(a + "." + b)
  {
  }

  lemma DecimalIsAddressLike(n: nat)
    ensures AddressLike(Decimal(n))
  {
  }

  lemma Long2IpShape(n: nat)
    ensures AddressLike(Long2Ip(n))
  {
    hide Decimal, AddressLike;
    DecimalIsAddressLike(n / 0x100_0000 % 256);
    DecimalIsAddressLike(n / 0x1_0000 % 256);
    DecimalIsAddressLike(n / 0x100 % 256);
    DecimalIsAddressLike(n % 256);
    DottedShape(Decimal(n / 0x100 % 256), Decimal(n % 256));
    DottedShape(Decimal(n / 0x1_0000 % 256), Decimal(n / 0x100 % 256) + "." + Decimal(n % 256));
    DottedShape(Decimal(n / 0x100_0000 % 256), Decimal(n / 0x1_0000 % 256) + "." + (Decimal(n / 0x100 % 256) + "." + Decimal(n % 256)));
  }

  /** An entry written for an address is read back as that address. */
  lemma WrittenNetwork(address: nat, prefix: nat)
    requires address < IPV4
    ensures Network(Written(address, prefix)) == Some((Long2Ip(address), Decimal(prefix)))
    ensures Ip2Long(Long2Ip(address)) == Some(address)
  {
    hide Long2Ip, Ip2Long, Decimal;
    Long2IpShape(address);
    AddressRoundTrip(address);
    var a, p := Long2Ip(address), Decimal(prefix);
    DecimalShape(prefix);
    var w := a + "/" + p;
    assert w[0] == a[0] && a[0] in a;
    assert w[|w| - 1] == p[|p| - 1] && p[|p| - 1] in p;
    assert TrimPhp(w) == w;
    CutJoined(a, '/', p);
  }

  // ----- The allocator ------------------------------------------------------------------

  datatype Entry = Entry(serverList: string, commonName: string, tunnelNetwork: string)

  datatype Failure = UnsupportedNetwork | UnsupportedPrefix | InvalidAddress | NoFreeAddress

  datatype Result<T> = Ok(value: T) | Failed(failure: Failure)

  datatype Block = Block(network: nat, prefix: nat)

  function Pow2(n: nat): (p: nat)
    ensures p > 0
  {
    if n == 0 then 1 else 2 * Pow2(n - 1)
  }

  predicate IsBlock(b: Block) {
    b.network < IPV4 && 1 <= b.prefix <= 30
  }

  function Size(b: Block): (n: nat)
    requires IsBlock(b)
    ensures n >= 4
  {
    assert Pow2(2) == 4;
    Pow2Grows(2, 32 - b.prefix);
    Pow2(32 - b.prefix)
  }

  lemma Pow2Grows(a: nat, b: nat)
    requires a <= b
    ensures Pow2(a) <= Pow2(b)
  {
    if a < b {
      Pow2Grows(a, b - 1);
    }
  }

  function ParseBlock(text: string): (r: Result<Block>)
    ensures r.Ok? ==> IsBlock(r.value)
  {
    var network := Network(text);
    if network.None? || |network.value.1| > 2 then Failed(UnsupportedNetwork)
    else
      var prefix := Numeral(network.value.1);
      if prefix < 1 || prefix > 30 then Failed(UnsupportedPrefix)
      else
        var ip := Ip2Long(network.value.0);
        if ip.None? || ip.value >= IPV4 then Failed(InvalidAddress) else Ok(Block(ip.value, prefix))
  }

  /** After trimming, the text is of this form: something like an address, and one or two digits. */
  predicate Shaped(text: string, address: string, digits: string) {
    && TrimPhp(text) == address + "/" + digits
    && AddressLike(address) && 1 <= |digits| <= 2 && AllDigits(digits)
  }

  lemma ShapedIsNetwork(text: string, address: string, digits: string)
    ensures Shaped(text, address, digits) <==> Network(text) == Some((address, digits)) && |digits| <= 2
  {
    hide TrimPhp;
    if Shaped(text, address, digits) {
      CutJoined(address, '/', digits);
    }
  }

  /** A network is accepted exactly if it writes an address and a prefix from 1 to 30, and read as these. */
  lemma ParsedIff(text: string, b: Block)
    ensures ParseBlock(text) == Ok(b) <==> IsBlock(b) && Writes(text, b)
  {
    hide TrimPhp, Network, Numeral, Long2Ip, Ip2Long;
    if ParseBlock(text) == Ok(b) {
      var network := Network(text).value;
      ShapedIsNetwork(text, network.0, network.1);
      AddressIff(network.0, b.network);
      assert Shaped(text, Long2Ip(b.network), network.1);
    }
    if IsBlock(b) && Writes(text, b) {
      var digits :| Shaped(text, Long2Ip(b.network), digits) && Numeral(digits) == b.prefix;
      ShapedIsNetwork(text, Long2Ip(b.network), digits);
      AddressIff(Long2Ip(b.network), b.network);
    }
  }

  /** The text is the address of the block and its prefix. */
  ghost predicate Writes(text: string, b: Block) {
    exists digits :: Shaped(text, Long2Ip(b.network), digits) && Numeral(digits) == b.prefix
  }

  /** Other texts are refused: those of another form, those with another prefix, and those whose address is none. */
  lemma RefusedNetworkIff(text: string)
    ensures ParseBlock(text) == Failed(UnsupportedNetwork) <==> forall a, d :: !Shaped(text, a, d)
    ensures forall a, d :: Shaped(text, a, d) ==>
      && (ParseBlock(text) == Failed(UnsupportedPrefix) <==> !(1 <= Numeral(d) <= 30))
      && (ParseBlock(text) == Failed(InvalidAddress) <==> 1 <= Numeral(d) <= 30 && !IsAddress(a))
  {
    hide TrimPhp, Network, Numeral, Long2Ip, Ip2Long;
    forall a, d
      ensures Shaped(text, a, d) <==> Network(text) == Some((a, d)) && |d| <= 2
    {
      ShapedIsNetwork(text, a, d);
    }
    forall a, n: nat
      ensures Ip2Long(a) == Some(n) <==> n < IPV4 && a == Long2Ip(n)
    {
      AddressIff(a, n);
    }
  }

  ghost predicate IsAddress(s: string) {
    exists n: nat :: n < IPV4 && s == Long2Ip(n)
  }

  /** What the allocator writes it also reads, as the same network. */
  lemma WrittenIsParsed(b: Block)
    requires IsBlock(b)
    ensures ParseBlock(Written(b.network, b.prefix)) == Ok(b)
  {
    hide Long2Ip, Ip2Long, Decimal;
    WrittenNetwork(b.network, b.prefix);
    DecimalShape(b.prefix);
  }

  /** The address that an entry takes on a server, if it takes one. */
  function Taken(entry: Entry, serverId: string): Option<nat> {
    var network := Network(entry.tunnelNetwork);
    if entry.serverList != serverId || network.None? then None else Ip2Long(network.value.0)
  }

  function Used(entries: seq<Entry>, serverId: string): set<nat> {
    if entries == [] then {}
    else
      var taken := Taken(entries[|entries| - 1], serverId);
      Used(entries[..|entries| - 1], serverId) + if taken.Some? then {taken.value} else {}
  }

  /** The entry is one of the server, and writes the address with some prefix. */
  ghost predicate Claims(entry: Entry, serverId: string, address: nat) {
    && entry.serverList == serverId && address < IPV4
    && exists digits :: digits != "" && AllDigits(digits) && TrimPhp(entry.tunnelNetwork) == Long2Ip(address) + "/" + digits
  }

  lemma TakenIff(entry: Entry, serverId: string, address: nat)
    ensures Taken(entry, serverId) == Some(address) <==> Claims(entry, serverId, address)
  {
    hide TrimPhp, Long2Ip, Ip2Long;
    var network := Network(entry.tunnelNetwork);
    if Taken(entry, serverId) == Some(address) {
      AddressIff(network.value.0, address);
    }
    if Claims(entry, serverId, address) {
      var digits :| digits != "" && AllDigits(digits) && TrimPhp(entry.tunnelNetwork) == Long2Ip(address) + "/" + digits;
      Long2IpShape(address);
      CutJoined(Long2Ip(address), '/', digits);
      AddressIff(Long2Ip(address), address);
    }
  }

  /** An address is used exactly if an entry of that server claims it; entries of other servers use none. */
  lemma {:induction false} UsedIff(entries: seq<Entry>, serverId: string, address: nat)
    ensures address in Used(entries, serverId) <==> exists i :: 0 <= i < |entries| && Claims(entries[i], serverId, address)
    decreases |entries|
  {
    hide Taken, Claims;
    if entries != [] {
      var n := |entries| - 1;
      UsedIff(entries[..n], serverId, address);
      TakenIff(entries[n], serverId, address);
      assert forall i :: 0 <= i < n ==> entries[..n][i] == entries[i];
    }
  }

  function FirstHost(b: Block, offset: int): nat {
    b.network + if offset > 1 then offset else 1
  }

  function Broadcast(b: Block): nat
    requires IsBlock(b)
  {
    b.network + Size(b) - 1
  }

  ghost predicate AllUsed(used: set<nat>, from: nat, to: nat) {
    forall c: nat :: from <= c < to ==> c in used
  }

  /** The first free candidate of the scan: from the first host up to the broadcast address, then from the
      network address up to the first host. */
  ghost predicate FirstFree(b: Block, offset: int, used: set<nat>, c: nat)
    requires IsBlock(b)
  {
    var start := FirstHost(b, offset);
    && c !in used
    && (|| (start <= c < Broadcast(b) && AllUsed(used, start, c))
        || (AllUsed(used, start, Broadcast(b)) && b.network < c < start && AllUsed(used, b.network + 1, c)))
  }

  ghost predicate NoneFree(b: Block, offset: int, used: set<nat>)
    requires IsBlock(b)
  {
    AllUsed(used, FirstHost(b, offset), Broadcast(b)) && AllUsed(used, b.network + 1, FirstHost(b, offset))
  }

  method CollectUsed(entries: seq<Entry>, serverId: string) returns (used: set<nat>)
    ensures used == Used(entries, serverId)
  {
    hide Network, Ip2Long;
    used := {};
    for i := 0 to |entries|
      invariant used == Used(entries[..i], serverId)
    {
      assert entries[..i + 1][..i] == entries[..i];
      var entry := entries[i];
      if entry.serverList == serverId {
        var network := Network(entry.tunnelNetwork);
        if network.Some? {
          var ip := Ip2Long(network.value.0);
          if ip.Some? {
            used := used + {ip.value};
          }
        }
      }
    }
    assert entries[..|entries|] == entries;
  }

  method Scan(used: set<nat>, from: nat, to: int) returns (free: Option<nat>)
    ensures free.Some? ==> from <= free.value < to && free.value !in used && AllUsed(used, from, free.value)
    ensures free.None? ==> forall c: nat :: from <= c < to ==> c in used
  {
    var candidate := from;
    while candidate < to
      invariant from <= candidate
      invariant AllUsed(used, from, candidate)
    {
      if candidate !in used {
        return Some(candidate);
      }
      candidate := candidate + 1;
    }
    free := None;
  }

  /** The first free address is determined by what is used. */
  lemma FirstFreeUnique(b: Block, offset: int, used: set<nat>, c: nat, d: nat)
    requires IsBlock(b) && FirstFree(b, offset, used, c) && FirstFree(b, offset, used, d)
    ensures c == d
  {
    hide Size;
    if c < d {
    } else if d < c {
    }
  }

  /** A text that writes the first free candidate. */
  ghost predicate WritesFirstFree(b: Block, offset: int, used: set<nat>, text: string)
    requires IsBlock(b)
  {
    exists c: nat :: FirstFree(b, offset, used, c) && text == Written(c, b.prefix)
  }

  method AllocateTunnelNetwork(tunnelNetwork: string, entries: seq<Entry>, serverId: string, offset: int)
    returns (result: Result<string>)
    ensures var block := ParseBlock(tunnelNetwork);
      && (block.Failed? ==> result == Failed(block.failure))
      && (block.Ok? && result.Ok? ==>
        forall text :: WritesFirstFree(block.value, offset, Used(entries, serverId), text) <==> text == result.value)
      && (block.Ok? && result.Failed? ==>
        result.failure == NoFreeAddress && NoneFree(block.value, offset, Used(entries, serverId)))
  {
    hide ParseBlock, Used, Written, Size;
    var block := ParseBlock(tunnelNetwork);
    if block.Failed? {
      return Failed(block.failure);
    }
    var b := block.value;
    var used := CollectUsed(entries, serverId);
    var free := Scan(used, FirstHost(b, offset), Broadcast(b));
    if free.None? {
      free := Scan(used, b.network + 1, FirstHost(b, offset));
    }
    if free.None? {
      return Failed(NoFreeAddress);
    }
    assert FirstFree(b, offset, used, free.value);
    result := Ok(Written(free.value, b.prefix));
    forall c: nat | FirstFree(b, offset, used, c)
      ensures c == free.value
    {
      FirstFreeUnique(b, offset, used, c, free.value);
    }
  }

  // ----- What one allocation guarantees -------------------------------------------------

  predicate Host(b: Block, c: nat)
    requires IsBlock(b)
  {
    b.network < c < Broadcast(b)
  }

  ghost predicate AllHostsUsed(b: Block, used: set<nat>)
    requires IsBlock(b)
  {
    forall c: nat :: Host(b, c) ==> c in used
  }

  /** What a caller can check: the first host lies in the block. */
  predicate OffsetFits(b: Block, offset: int)
    requires IsBlock(b)
  {
    (if offset > 1 then offset else 1) <= Size(b) - 1
  }

  /** With an offset that fits, the address is a free host and the call fails exactly when every host is used. */
  lemma FittingOffsetIsSound(b: Block, offset: int, used: set<nat>)
    requires IsBlock(b) && OffsetFits(b, offset)
    ensures forall c: nat :: FirstFree(b, offset, used, c) ==> b.network < c < b.network + Size(b) - 1 && c !in used
    ensures NoneFree(b, offset, used) <==> AllHostsUsed(b, used)
  {
    hide Size;
    if NoneFree(b, offset, used) {
      assert AllHostsUsed(b, used);
    }
    if AllHostsUsed(b, used) {
      assert AllUsed(used, FirstHost(b, offset), Broadcast(b));
    }
  }

  /** The scan starts at the offset, or at the first host for offsets below it: if that host is free, it is the one. */
  lemma OffsetIsTriedFirst(b: Block, offset: int, used: set<nat>, c: nat)
    requires IsBlock(b)
    requires c == b.network + (if offset < 1 then 1 else offset) && c < b.network + Size(b) - 1 && c !in used
    ensures FirstFree(b, offset, used, c)
  {
    hide Size;
  }

  /** Without that, the second scan leaves the block: it hands out the broadcast address or one beyond it
      exactly when every host is used and some address between the two is not. */
  lemma LeavesBlockIff(b: Block, offset: int, used: set<nat>)
    requires IsBlock(b)
    ensures (exists c: nat :: FirstFree(b, offset, used, c) && !Host(b, c)) <==>
      !OffsetFits(b, offset) && AllHostsUsed(b, used) && !AllUsed(used, Broadcast(b), FirstHost(b, offset))
  {
    hide Size;
    var start := FirstHost(b, offset);
    if OffsetFits(b, offset) {
      FittingOffsetIsSound(b, offset, used);
    } else if !AllHostsUsed(b, used) {
      var h: nat :| Host(b, h) && h !in used;
      forall c: nat | FirstFree(b, offset, used, c)
        ensures Host(b, c)
      {
        assert h < start;
      }
    } else if AllUsed(used, Broadcast(b), start) {
      forall c: nat
        ensures !FirstFree(b, offset, used, c)
      {
        assert Host(b, c) || c >= Broadcast(b) || c <= b.network;
      }
    } else {
      var c := FirstUnused(used, Broadcast(b), start);
      assert AllUsed(used, b.network + 1, c) by {
        assert forall h: nat :: b.network + 1 <= h < c ==> Host(b, h) || Broadcast(b) <= h < c;
      }
      assert FirstFree(b, offset, used, c) && !Host(b, c);
    }
  }

  lemma {:induction false} FirstUnused(used: set<nat>, from: nat, end: nat) returns (c: nat)
    requires !AllUsed(used, from, end)
    ensures from <= c < end && c !in used && AllUsed(used, from, c)
    decreases end
  {
    var d: nat :| from <= d < end && d !in used;
    if AllUsed(used, from, d) {
      c := d;
    } else {
      c := FirstUnused(used, from, d);
    }
  }

  // ----- Repeated allocation ------------------------------------------------------------

  predicate Aligned(b: Block)
    requires IsBlock(b)
  {
    b.network % Size(b) == 0
  }

  /** The block ends below the end of the address space. */
  predicate InSpace(b: Block)
    requires IsBlock(b)
  {
    b.network + Size(b) <= IPV4
  }

  lemma Doubled(x: nat, y: nat)
    ensures 2 * (x * y) == (2 * x) * y
  {
  }

  lemma {:induction false} Pow2Sum(a: nat, b: nat)
    ensures Pow2(a + b) == Pow2(a) * Pow2(b)
    decreases a
  {
    if a > 0 {
      Pow2Sum(a - 1, b);
      var x, y, z := Pow2(a - 1), Pow2(b), Pow2(a - 1 + b);
      assert Pow2(a) == 2 * x && Pow2(a + b) == 2 * z;
      hide Pow2;
      Doubled(x, y);
    }
  }

  lemma Pow2Of32()
    ensures Pow2(32) == IPV4
  {
    assert Pow2(4) == 16;
    hide Pow2;
    Pow2Sum(4, 4);
    assert Pow2(8) == 256;
    Pow2Sum(8, 8);
    assert Pow2(16) == 65536;
    Pow2Sum(16, 16);
  }

  /** A prefix of `p` divides the address space into `2^p` blocks. */
  lemma BlocksFillSpace(b: Block)
    requires IsBlock(b)
    ensures Size(b) * Pow2(b.prefix) == IPV4
  {
    assert Size(b) == Pow2(32 - b.prefix);
    Pow2Of32();
    hide Pow2, Size;
    Pow2Sum(32 - b.prefix, b.prefix);
  }

  lemma AlignedIsInSpace(b: Block)
    requires IsBlock(b) && Aligned(b)
    ensures InSpace(b)
  {
    var size, blocks := Size(b), Pow2(b.prefix);
    BlocksFillSpace(b);
    NextMultiple(b.network, size, blocks);
  }

  lemma NextMultiple(n: nat, size: nat, blocks: nat)
    requires size > 0 && n % size == 0 && n < blocks * size
    ensures n + size <= blocks * size
  {
    var q := n / size;
    assert n == q * size;
    TimesGrows(blocks, q, size);
    TimesGrows(q + 1, blocks, size);
    assert (q + 1) * size == n + size;
  }

  lemma TimesGrows(a: nat, b: nat, c: nat)
    ensures a <= b ==> a * c <= b * c
  {
  }

  ghost function FreeHosts(b: Block, used: set<nat>): set<nat>
    requires IsBlock(b)
  {
    set c: nat | b.network < c < Broadcast(b) && c !in used
  }

  /** The entries after one more client, who gets the first free address. */
  ghost predicate AddsAt(b: Block, serverId: string, offset: int, before: seq<Entry>, after: seq<Entry>, name: string,
                         c: nat)
    requires IsBlock(b)
  {
    && FirstFree(b, offset, Used(before, serverId), c)
    && after == before + [Entry(serverId, name, Written(c, b.prefix))]
  }

  ghost predicate Adds(b: Block, serverId: string, offset: int, before: seq<Entry>, after: seq<Entry>)
    requires IsBlock(b)
  {
    exists name: string, c: nat :: AddsAt(b, serverId, offset, before, after, name, c)
  }

  ghost predicate Known(entries: seq<Entry>, name: string) {
    exists i :: 0 <= i < |entries| && entries[i].commonName == name
  }

  /** Adds a client, unless there is one of that name already. */
  method AddClient(tunnelNetwork: string, entries: seq<Entry>, serverId: string, name: string, offset: int)
    returns (result: Result<seq<Entry>>)
    ensures Known(entries, name) ==> result == Ok(entries)
    ensures !Known(entries, name) ==>
      var block := ParseBlock(tunnelNetwork);
      && (block.Failed? ==> result == Failed(block.failure))
      && (block.Ok? && result.Ok? ==>
        Adds(block.value, serverId, offset, entries, result.value)
        && result.value[|result.value| - 1].commonName == name)
      && (block.Ok? && result.Failed? ==>
        result.failure == NoFreeAddress && NoneFree(block.value, offset, Used(entries, serverId)))
  {
    hide FirstFree, NoneFree, ParseBlock, Written, Used;
    var known := false;
    for i := 0 to |entries|
      invariant known <==> exists j :: 0 <= j < i && entries[j].commonName == name
    {
      if entries[i].commonName == name {
        known := true;
      }
    }
    if known {
      return Ok(entries);
    }
    var network := AllocateTunnelNetwork(tunnelNetwork, entries, serverId, offset);
    if network.Failed? {
      return Failed(network.failure);
    }
    result := Ok(entries + [Entry(serverId, name, network.value)]);
    ghost var b := ParseBlock(tunnelNetwork).value;
    assert WritesFirstFree(b, offset, Used(entries, serverId), network.value);
    ghost var c: nat :| FirstFree(b, offset, Used(entries, serverId), c) && network.value == Written(c, b.prefix);
    assert AddsAt(b, serverId, offset, entries, result.value, name, c);
  }

  /** One more client takes an address that nobody had. */
  lemma AddTakesOneAddress(b: Block, serverId: string, offset: int, before: seq<Entry>, after: seq<Entry>, name: string,
                           c: nat)
    requires IsBlock(b) && InSpace(b) && FirstHost(b, offset) <= IPV4
    requires AddsAt(b, serverId, offset, before, after, name, c)
    ensures c !in Used(before, serverId)
    ensures Taken(after[|before|], serverId) == Some(c)
    ensures Used(after, serverId) == Used(before, serverId) + {c}
  {
    hide Size, Written, Network, Ip2Long, Long2Ip;
    WrittenNetwork(c, b.prefix);
    assert after[..|before|] == before;
  }

  /** One more client takes exactly one free host. */
  lemma AddTakesOneHost(b: Block, serverId: string, offset: int, before: seq<Entry>, after: seq<Entry>, name: string,
                        c: nat)
    requires IsBlock(b) && InSpace(b) && OffsetFits(b, offset)
    requires AddsAt(b, serverId, offset, before, after, name, c)
    ensures c in FreeHosts(b, Used(before, serverId))
    ensures Taken(after[|before|], serverId) == Some(c)
    ensures Used(after, serverId) == Used(before, serverId) + {c}
    ensures FreeHosts(b, Used(after, serverId)) == FreeHosts(b, Used(before, serverId)) - {c}
  {
    hide Size, Written, Used, Taken, FirstFree;
    FittingOffsetIsSound(b, offset, Used(before, serverId));
    AddTakesOneAddress(b, serverId, offset, before, after, name, c);
  }

  /** A history of successful additions, each to what the one before it left. */
  ghost predicate Additions(b: Block, serverId: string, offset: int, history: seq<seq<Entry>>)
    requires IsBlock(b)
  {
    history != [] && forall i :: 0 < i < |history| ==> Adds(b, serverId, offset, history[i - 1], history[i])
  }

  lemma {:induction false} AdditionsAppend(b: Block, serverId: string, offset: int, history: seq<seq<Entry>>)
    requires IsBlock(b) && Additions(b, serverId, offset, history)
    ensures history[0] <= history[|history| - 1]
    ensures |history[|history| - 1]| == |history[0]| + |history| - 1
  {
    hide Size, Used, FirstFree, Written;
    var n := |history| - 1;
    if n > 0 {
      AdditionsAppend(b, serverId, offset, history[..n]);
      assert Adds(b, serverId, offset, history[n - 1], history[n]);
    }
  }

  /** Every addition takes one host away: a block with `n` free hosts serves exactly `n` more clients. */
  lemma {:induction false} AdditionsUseUpHosts(b: Block, serverId: string, offset: int, history: seq<seq<Entry>>)
    requires IsBlock(b) && InSpace(b) && OffsetFits(b, offset) && Additions(b, serverId, offset, history)
    ensures |FreeHosts(b, Used(history[|history| - 1], serverId))| + (|history| - 1) == |FreeHosts(b, Used(history[0], serverId))|
  {
    hide Size, FreeHosts, Used, FirstFree, Written;
    var n := |history| - 1;
    if n > 0 {
      AdditionsUseUpHosts(b, serverId, offset, history[..n]);
      assert Adds(b, serverId, offset, history[n - 1], history[n]);
      var name: string, c: nat :| AddsAt(b, serverId, offset, history[n - 1], history[n], name, c);
      AddTakesOneHost(b, serverId, offset, history[n - 1], history[n], name, c);
    }
  }

  /** The next addition is refused exactly when the free hosts have run out. */
  lemma RefusedIffUsedUp(b: Block, serverId: string, offset: int, history: seq<seq<Entry>>)
    requires IsBlock(b) && InSpace(b) && OffsetFits(b, offset) && Additions(b, serverId, offset, history)
    ensures NoneFree(b, offset, Used(history[|history| - 1], serverId)) <==>
      |history| - 1 == |FreeHosts(b, Used(history[0], serverId))|
    ensures |history| - 1 <= Size(b) - 2
  {
    hide Size, Used, FirstFree, NoneFree, OffsetFits, InSpace, AllHostsUsed, FreeHosts;
    var used := Used(history[|history| - 1], serverId);
    AdditionsUseUpHosts(b, serverId, offset, history);
    FittingOffsetIsSound(b, offset, used);
    NoFreeHosts(b, used);
    FewHosts(b, Used(history[0], serverId));
  }

  lemma NoFreeHosts(b: Block, used: set<nat>)
    requires IsBlock(b)
    ensures AllHostsUsed(b, used) <==> |FreeHosts(b, used)| == 0
  {
    hide Size;
    if !AllHostsUsed(b, used) {
      var h: nat :| Host(b, h) && h !in used;
      assert h in FreeHosts(b, used);
    }
  }

  lemma FewHosts(b: Block, used: set<nat>)
    requires IsBlock(b)
    ensures |FreeHosts(b, used)| <= Size(b) - 2
  {
    hide Size;
    RangeCount(b.network + 1, Broadcast(b), FreeHosts(b, used));
  }

  lemma {:induction false} RangeCount(from: nat, end: nat, s: set<nat>)
    requires from <= end && forall c :: c in s ==> from <= c < end
    ensures |s| <= end - from
    decreases end
  {
    if from == end {
      assert s == {};
    } else {
      RangeCount(from, end - 1, s - {end - 1});
    }
  }

  /** No address is handed out twice, and none that was taken at the beginning; so it is even if the offset does not
      fit the block, as long as it stays in the address space. */
  lemma AddressesAreDistinct(b: Block, serverId: string, offset: int, history: seq<seq<Entry>>, i: nat, j: nat)
    requires IsBlock(b) && InSpace(b) && FirstHost(b, offset) <= IPV4 && Additions(b, serverId, offset, history)
    requires i < j < |history[|history| - 1]| && |history[0]| <= j
    ensures var entries := history[|history| - 1];
      Taken(entries[j], serverId).Some? && Taken(entries[i], serverId) != Taken(entries[j], serverId)
  {
    hide Size, Used, FirstFree, Taken, Written;
    var n := |history| - 1;
    AdditionsAppend(b, serverId, offset, history);
    assert n > 0;
    assert Adds(b, serverId, offset, history[n - 1], history[n]);
    var name: string, c: nat :| AddsAt(b, serverId, offset, history[n - 1], history[n], name, c);
    AddTakesOneAddress(b, serverId, offset, history[n - 1], history[n], name, c);
    if j < |history[n - 1]| {
      AddressesAreDistinct(b, serverId, offset, history[..n], i, j);
    } else {
      TakenIsUsed(history[n - 1], serverId, i);
    }
  }

  lemma {:induction false} TakenIsUsed(entries: seq<Entry>, serverId: string, i: nat)
    requires i < |entries|
    ensures Taken(entries[i], serverId).Some? ==> Taken(entries[i], serverId).value in Used(entries, serverId)
  {
    hide Taken;
    if i < |entries| - 1 {
      TakenIsUsed(entries[..|entries| - 1], serverId, i);
    }
  }
}
