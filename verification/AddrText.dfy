/**
 * The text form of a datagram address: printing, parsing, and the key of the address-handle cache
 * (rdmanet/addr.go, types.go, rdmanet/packet_linux.go).
 */
module AddrText {
  import opened Words

  type GID = g: seq<byte> | |g| == 16 witness seq(16, _ => 0)

  const DEFAULT_QKEY: uint32 := 0x11111111

  datatype Addr = Addr(gid: GID, qpn: uint32, qkey: uint32)

  /** The Q_Key a datagram to the address is sent with: zero stands for the default. */
  function Effective(a: Addr): uint32 { if a.qkey == 0 then DEFAULT_QKEY else a.qkey }

  datatype Error = MissingSeparator | EmptyGid | BadGid | EmptyQpn | BadQpn | BadQKey | NotANumber
  datatype Result<+T> = Ok(value: T) | Err(error: Error)

  // --------------------------------------------------------------- numbers

  function HexDigit(n: nat): char
    requires n < 16
  {
    "0123456789abcdef"[n]
  }

  /** The value of a digit or letter of either case; anything else is too large for any base. */
  function DigitValue(c: char): nat {
    if '0' <= c <= '9' then (c - '0') as nat
    else if 'a' <= c <= 'z' then (c - 'a') as nat + 10
    else if 'A' <= c <= 'Z' then (c - 'A') as nat + 10
    else 99
  }

  /** The value of a string of digits, or nothing if some character is no digit of the base. */
  datatype Digits = NoDigits | Value(v: nat)

  function ReadDigits(s: string, base: nat): Digits {
    if s == "" then Value(0)
    else
      match ReadDigits(s[..|s| - 1], base)
      case NoDigits => NoDigits
      case Value(v) =>
        var d := DigitValue(s[|s| - 1]);
        if d < base then Value(v * base + d) else NoDigits
  }

  /** `strconv.ParseUint` with an explicit base: some digits, all valid, and a value in range. */
  function ParseUint(s: string, base: nat, limit: nat): Result<nat> {
    if s == "" then Err(NotANumber)
    else
      match ReadDigits(s, base)
      case NoDigits => Err(NotANumber)
      case Value(v) => if v < limit then Ok(v) else Err(NotANumber)
  }

  /** `strconv.FormatUint` in base 16. */
  function FormatHex(n: nat): (s: string)
    ensures s != ""
  {
    if n < 16 then [HexDigit(n)] else FormatHex(n / 16) + [HexDigit(n % 16)]
  }

  lemma DigitsSnoc(s: string, c: char, base: nat)
    ensures ReadDigits(s + [c], base) ==
            match ReadDigits(s, base)
            case NoDigits => NoDigits
            case Value(v) => if DigitValue(c) < base then Value(v * base + DigitValue(c)) else NoDigits
  {
    assert (s + [c])[..|s|] == s;
  }

  lemma HexDigitValue(n: nat)
    requires n < 16
    ensures DigitValue(HexDigit(n)) == n && HexDigit(n) != '%' && HexDigit(n) != '#' && HexDigit(n) != ':'
    ensures '0' <= HexDigit(n) <= '9' || 'a' <= HexDigit(n) <= 'f'
  {}

  lemma {:induction false} FormatReads(n: nat)
    ensures ReadDigits(FormatHex(n), 16) == Value(n)
    ensures Plain(FormatHex(n))
  {
    hide HexDigit, DigitValue, ReadDigits;
    HexDigitValue(n % 16);
    if n < 16 {
      DigitsSnoc("", HexDigit(n), 16);
      EmptyDigits(16);
      assert "" + [HexDigit(n)] == [HexDigit(n)];
    } else {
      FormatReads(n / 16);
      DigitsSnoc(FormatHex(n / 16), HexDigit(n % 16), 16);
    }
  }

  /** Printed in lower case, with no zero in front. */
  lemma {:induction false} FormatText(n: nat)
    ensures forall c :: c in FormatHex(n) ==> '0' <= c <= '9' || 'a' <= c <= 'f'
    ensures FormatHex(n)[0] == '0' <==> n == 0
  {
    hide HexDigit;
    HexDigitValue(n % 16);
    HexDigitValue(0);
    if n >= 16 { FormatText(n / 16); }
  }

  lemma EmptyDigits(base: nat)
    ensures ReadDigits("", base) == Value(0)
  {}

  /** None of the separators of the text form. */
  predicate Plain(s: string) { '%' !in s && '#' !in s && ':' !in s }

  /** `parseUint32`: hex behind `0x` or `0X`, decimal otherwise. */
  function ParseUint32(s: string): Result<nat> {
    if |s| >= 2 && s[0] == '0' && (s[1] == 'x' || s[1] == 'X') then ParseUint(s[2..], 16, 0x1_0000_0000)
    else ParseUint(s, 10, 0x1_0000_0000)
  }

  function Power(base: nat, n: nat): nat { if n == 0 then 1 else base * Power(base, n - 1) }

  /** What a row of digits stands for: each times the power of its place, the first one highest. */
  function Positional(s: string, base: nat): nat {
    if s == "" then 0 else DigitValue(s[0]) * Power(base, |s| - 1) + Positional(s[1..], base)
  }

  lemma {:induction false} PositionalSnoc(s: string, c: char, base: nat)
    ensures Positional(s + [c], base) == Positional(s, base) * base + DigitValue(c)
  {
    hide DigitValue;
    if s == "" {
      assert (s + [c])[1..] == "";
      assert Power(base, 0) == 1;
    } else {
      var d, p := DigitValue(s[0]), Power(base, |s| - 1);
      PositionalSnoc(s[1..], c, base);
      assert (s + [c])[1..] == s[1..] + [c];
      assert Power(base, |s|) == base * p;
      assert d * (base * p) == d * p * base;
    }
  }

  lemma {:induction false} ReadsPositional(s: string, base: nat)
    ensures ReadDigits(s, base) ==
            if forall c :: c in s ==> DigitValue(c) < base then Value(Positional(s, base)) else NoDigits
  {
    hide DigitValue;
    if s != "" {
      var init, last := s[..|s| - 1], s[|s| - 1];
      ReadsPositional(init, base);
      PositionalSnoc(init, last, base);
      assert s == init + [last];
    }
  }

  lemma DigitValues(c: char)
    ensures DigitValue(c) < 10 <==> '0' <= c <= '9'
    ensures DigitValue(c) < 16 <==> '0' <= c <= '9' || 'a' <= c <= 'f' || 'A' <= c <= 'F'
    ensures forall k :: 0 <= k < 10 ==> DigitValue("0123456789"[k]) == k
    ensures forall k :: 0 <= k < 6 ==> DigitValue("abcdef"[k]) == DigitValue("ABCDEF"[k]) == 10 + k
  {}

  /** What `parseUint32` reads: hex digits of either case behind `0x` or `0X`, else decimal ones, below 2^32. */
  lemma NumberText(s: string)
    ensures var hex := |s| >= 2 && (s[..2] == "0x" || s[..2] == "0X");
            var t := if hex then s[2..] else s; var v := Positional(t, if hex then 16 else 10);
            && (ParseUint32(s).Ok? <==>
                  t != "" && v < 0x1_0000_0000
                  && forall c :: c in t ==> '0' <= c <= '9' || (hex && ('a' <= c <= 'f' || 'A' <= c <= 'F')))
            && (ParseUint32(s).Ok? ==> ParseUint32(s).value == v)
  {
    hide DigitValue, ReadDigits, Positional;
    var hex := |s| >= 2 && s[0] == '0' && (s[1] == 'x' || s[1] == 'X');
    assert |s| >= 2 ==> s[..2] == [s[0], s[1]];
    assert hex <==> |s| >= 2 && (s[..2] == "0x" || s[..2] == "0X");
    forall c: char ensures DigitValue(c) < 10 <==> '0' <= c <= '9' { DigitValues(c); }
    forall c: char ensures DigitValue(c) < 16 <==> '0' <= c <= '9' || 'a' <= c <= 'f' || 'A' <= c <= 'F' {
      DigitValues(c);
    }
    ReadsPositional(s, 10);
    if hex { ReadsPositional(s[2..], 16); }
  }

  lemma Uint32RoundTrip(v: uint32)
    ensures ParseUint32("0x" + FormatHex(v)) == Ok(v)
  {
    FormatReads(v);
    assert ("0x" + FormatHex(v))[2..] == FormatHex(v);
  }

  // ------------------------------------------------------------------- GID

  function Hex2(b: byte): (s: string)
    ensures |s| == 2
  {
    [HexDigit(b / 16), HexDigit(b % 16)]
  }

  function Group(g: GID, i: nat): (s: string)
    requires i < 8
    ensures |s| == 4
  {
    Hex2(g[2 * i]) + Hex2(g[2 * i + 1])
  }

  /** `GID.String`, for the first `n` groups. */
  function Groups(g: GID, n: nat): string
    requires n <= 8
  {
    if n == 0 then "" else if n == 1 then Group(g, 0) else Groups(g, n - 1) + ":" + Group(g, n - 1)
  }

  function GidString(g: GID): string { Groups(g, 8) }

  function GroupValue(g: GID, i: nat): (v: nat)
    requires i < 8
    ensures v < 0x1_0000 && v / 256 == g[2 * i] && v % 256 == g[2 * i + 1]
  {
    var hi: int, lo: int := g[2 * i], g[2 * i + 1];
    hi * 256 + lo
  }

  lemma GroupReads(g: GID, i: nat)
    requires i < 8
    ensures ParseUint(Group(g, i), 16, 0x1_0000) == Ok(GroupValue(g, i)) && Plain(Group(g, i))
  {
    hide HexDigit, DigitValue, ReadDigits;
    var a: int, b: int := g[2 * i], g[2 * i + 1];
    HexDigitValue(a / 16);
    HexDigitValue(a % 16);
    HexDigitValue(b / 16);
    HexDigitValue(b % 16);
    EmptyDigits(16);
    DigitsSnoc("", HexDigit(a / 16), 16);
    DigitsSnoc("" + [HexDigit(a / 16)], HexDigit(a % 16), 16);
    DigitsSnoc("" + [HexDigit(a / 16)] + [HexDigit(a % 16)], HexDigit(b / 16), 16);
    DigitsSnoc("" + [HexDigit(a / 16)] + [HexDigit(a % 16)] + [HexDigit(b / 16)], HexDigit(b % 16), 16);
    assert Group(g, i) == "" + [HexDigit(a / 16)] + [HexDigit(a % 16)] + [HexDigit(b / 16)] + [HexDigit(b % 16)];
  }

  /** `strings.Split` on one character. */
  function Split(s: string, c: char): (r: seq<string>)
    ensures r != []
  {
    if s == "" then [""]
    else
      var init := Split(s[..|s| - 1], c);
      var last := s[|s| - 1];
      if last == c then init + [""] else init[|init| - 1 := init[|init| - 1] + [last]]
  }

  lemma {:induction false} SplitAppend(s: string, c: char, part: string)
    requires c !in part
    ensures Split(s + [c] + part, c) == Split(s, c) + [part]
    ensures Split(part, c) == [part]
  {
    if part == "" {
      assert s + [c] + "" == s + [c];
      assert (s + [c])[..|s|] == s;
    } else {
      var k := |part| - 1;
      SplitAppend(s, c, part[..k]);
      assert (s + [c] + part)[..|s| + 1 + k] == s + [c] + part[..k];
      assert part[..k] + [part[k]] == part;
    }
  }

  function AllGroups(g: GID, n: nat): (r: seq<string>)
    requires n <= 8
    ensures |r| == n
  {
    seq(n, i requires 0 <= i < n => Group(g, i))
  }

  lemma {:induction false} SplitGroups(g: GID, n: nat)
    requires 1 <= n <= 8
    ensures Split(Groups(g, n), ':') == AllGroups(g, n)
    ensures '%' !in Groups(g, n)
  {
    hide Group, Split;
    GroupReads(g, n - 1);
    if n == 1 {
      SplitAppend("", ':', Group(g, 0));
    } else {
      SplitGroups(g, n - 1);
      SplitAppend(Groups(g, n - 1), ':', Group(g, n - 1));
      assert AllGroups(g, n) == AllGroups(g, n - 1) + [Group(g, n - 1)];
    }
  }

  /** The bytes of the first `n` parts, two for each, high byte first. */
  function PartBytes(parts: seq<string>, n: nat): (r: Result<seq<byte>>)
    requires n <= |parts|
    ensures r.Ok? ==> |r.value| == 2 * n
  {
    if n == 0 then Ok([])
    else
      match PartBytes(parts, n - 1)
      case Err(e) => Err(e)
      case Ok(bytes) =>
        match ParseUint(parts[n - 1], 16, 0x1_0000)
        case Err(_) => Err(BadGid)
        case Ok(v) => Ok(bytes + [v / 256, v % 256])
  }

  function GidOf(s: string): Result<GID> {
    var parts := Split(s, ':');
    if |parts| != 8 then Err(BadGid)
    else match PartBytes(parts, 8) case Err(e) => Err(e) case Ok(bytes) => Ok(bytes)
  }

  /** `parseGID`: one pass over the groups, filling the sixteen bytes in place. */
  method ParseGid(s: string) returns (r: Result<GID>)
    ensures r == GidOf(s)
  {
    var parts := Split(s, ':');
    if |parts| != 8 {
      return Err(BadGid);
    }
    var gid := new byte[16](_ => 0);
    for i := 0 to 8
      invariant PartBytes(parts, i) == Ok(gid[..2 * i])
    {
      var v := ParseUint(parts[i], 16, 0x1_0000);
      if v.Err? {
        PartsFail(parts, i + 1, 8);
        return Err(BadGid);
      }
      ghost var before := gid[..2 * i];
      gid[2 * i] := v.value / 256;
      gid[2 * i + 1] := v.value % 256;
      assert gid[..2 * (i + 1)] == before + [v.value / 256, v.value % 256];
    }
    assert gid[..16] == gid[..];
    r := Ok(gid[..]);
  }

  function Joined(parts: seq<string>): string
    requires parts != []
  {
    if |parts| == 1 then parts[0] else Joined(parts[..|parts| - 1]) + ":" + parts[|parts| - 1]
  }

  lemma {:induction false} SplitJoined(parts: seq<string>)
    requires parts != [] && forall p :: p in parts ==> ':' !in p
    ensures Split(Joined(parts), ':') == parts
  {
    hide Split;
    var k := |parts| - 1;
    assert parts[k] in parts;
    if k == 0 {
      SplitAppend("", ':', parts[0]);
    } else {
      SplitJoined(parts[..k]);
      SplitAppend(Joined(parts[..k]), ':', parts[k]);
      assert ":" == [':'];
    }
  }

  /** One to any number of hex digits, for a number of two bytes. */
  predicate IsGroup(p: string) {
    && p != "" && Positional(p, 16) < 0x1_0000
    && forall c :: c in p ==> '0' <= c <= '9' || 'a' <= c <= 'f' || 'A' <= c <= 'F'
  }

  lemma GroupText(p: string)
    ensures ParseUint(p, 16, 0x1_0000) == if IsGroup(p) then Ok(Positional(p, 16)) else Err(NotANumber)
  {
    hide DigitValue, ReadDigits, Positional;
    forall c: char ensures DigitValue(c) < 16 <==> '0' <= c <= '9' || 'a' <= c <= 'f' || 'A' <= c <= 'F' {
      DigitValues(c);
    }
    ReadsPositional(p, 16);
  }

  lemma {:induction false} PartsText(parts: seq<string>, n: nat)
    requires n <= |parts|
    ensures PartBytes(parts, n).Ok? <==> forall i :: 0 <= i < n ==> IsGroup(parts[i])
    ensures PartBytes(parts, n).Err? ==> PartBytes(parts, n) == Err(BadGid)
    ensures PartBytes(parts, n).Ok? ==>
              forall i :: 0 <= i < n ==>
                var hi: int, lo: int := PartBytes(parts, n).value[2 * i], PartBytes(parts, n).value[2 * i + 1];
                hi * 256 + lo == Positional(parts[i], 16)
  {
    hide ParseUint, IsGroup, Positional;
    if n > 0 {
      PartsText(parts, n - 1);
      GroupText(parts[n - 1]);
    }
  }

  /** Which texts are GIDs: eight groups of hex digits between colons; the bytes of each, high one first. */
  lemma GidText(parts: seq<string>)
    requires parts != [] && forall p :: p in parts ==> ':' !in p
    ensures var r := GidOf(Joined(parts));
            && (r.Ok? <==> |parts| == 8 && forall i :: 0 <= i < 8 ==> IsGroup(parts[i]))
            && (r.Err? ==> r.error == BadGid)
            && (r.Ok? ==> forall i :: 0 <= i < 8 ==>
                            var hi: int, lo: int := r.value[2 * i], r.value[2 * i + 1];
                            hi * 256 + lo == Positional(parts[i], 16))
  {
    hide PartBytes, IsGroup, Split, Joined, Positional;
    SplitJoined(parts);
    if |parts| == 8 { PartsText(parts, 8); }
  }

  /** A bad group spoils the address whatever follows. */
  lemma {:induction false} PartsFail(parts: seq<string>, k: nat, n: nat)
    requires k <= n <= |parts| && PartBytes(parts, k) == Err(BadGid)
    ensures PartBytes(parts, n) == Err(BadGid)
  {
    if k < n { PartsFail(parts, k, n - 1); }
  }

  lemma {:induction false} PartsOfGid(g: GID, n: nat)
    requires n <= 8
    ensures PartBytes(AllGroups(g, 8), n) == Ok(g[..2 * n])
  {
    hide ParseUint, Group;
    if n > 0 {
      PartsOfGid(g, n - 1);
      GroupReads(g, n - 1);
      assert g[..2 * n] == g[..2 * (n - 1)] + [g[2 * (n - 1)], g[2 * (n - 1) + 1]];
    }
  }

  lemma GidRoundTrip(g: GID)
    ensures GidOf(GidString(g)) == Ok(g) && '%' !in GidString(g) && GidString(g) != ""
  {
    hide Split, Group, PartBytes, Groups;
    SplitGroups(g, 8);
    PartsOfGid(g, 8);
    assert g[..16] == g;
    if Groups(g, 8) == "" {
      SplitAppend("", ':', "");
      assert false;
    }
  }

  // --------------------------------------------------------------- address

  /** The part behind the queue-pair number: nothing for a default key. */
  function KeySuffix(a: Addr): string {
    if a.qkey != 0 && a.qkey != DEFAULT_QKEY then "#0x" + FormatHex(a.qkey) else ""
  }

  /** `Addr.String` of a non-nil address. */
  function Print(a: Addr): string { GidString(a.gid) + "%" + ("0x" + FormatHex(a.qpn) + KeySuffix(a)) }

  /** `strings.IndexByte`. */
  function IndexOf(s: string, c: char): (i: int)
    ensures -1 <= i < |s|
    ensures i < 0 <==> c !in s
    ensures i >= 0 ==> s[i] == c && c !in s[..i]
  {
    if s == "" then -1
    else if s[0] == c then 0
    else
      var i := IndexOf(s[1..], c);
      assert i >= 0 ==> s[..i + 1] == [s[0]] + s[1..][..i];
      if i < 0 then -1 else i + 1
  }

  /** The number and key behind the separator. */
  function ResolveRest(gid: GID, rest: string): Result<Addr> {
    var hash := IndexOf(rest, '#');
    var qpnText := if hash >= 0 then rest[..hash] else rest;
    var keyText := if hash >= 0 then rest[hash + 1..] else "";
    if qpnText == "" then Err(EmptyQpn)
    else
      match ParseUint32(qpnText)
      case Err(_) => Err(BadQpn)
      case Ok(qpn) =>
        if keyText == "" then Ok(Addr(gid, qpn, 0))
        else
          match ParseUint32(keyText)
          case Err(_) => Err(BadQKey)
          case Ok(qkey) => Ok(Addr(gid, qpn, qkey))
  }

  /** `ResolveAddr`. */
  function Resolve(s: string): Result<Addr> {
    var pct := IndexOf(s, '%');
    if pct < 0 then Err(MissingSeparator)
    else if pct == 0 then Err(EmptyGid)
    else
      match GidOf(s[..pct])
      case Err(e) => Err(e)
      case Ok(gid) => ResolveRest(gid, s[pct + 1..])
  }

  lemma IndexAt(a: string, c: char, b: string)
    requires c !in a
    ensures IndexOf(a + [c] + b, c) == |a|
    ensures (a + [c] + b)[..|a|] == a && (a + [c] + b)[|a| + 1..] == b
  {
    var s := a + [c] + b;
    var i := IndexOf(s, c);
    assert s[|a|] == c;
    assert forall k :: 0 <= k < |a| ==> s[k] == a[k] && a[k] in a;
  }

  /** How texts are taken apart, and which error comes first. */
  lemma ResolveText(g: string, q: string, keyed: bool, k: string)
    requires '%' !in g && '#' !in q
    ensures Resolve(g) == Err(MissingSeparator)
    ensures var gid, qpn, key := GidOf(g), ParseUint32(q), ParseUint32(k);
            Resolve(g + "%" + if keyed then q + "#" + k else q) ==
            if g == "" then Err(EmptyGid)
            else if gid.Err? then Err(gid.error)
            else if q == "" then Err(EmptyQpn)
            else if qpn.Err? then Err(BadQpn)
            else if !keyed || k == "" then Ok(Addr(gid.value, qpn.value, 0))
            else if key.Err? then Err(BadQKey)
            else Ok(Addr(gid.value, qpn.value, key.value))
  {
    hide GidOf, ParseUint32;
    IndexAt(g, '%', q);
    IndexAt(g, '%', q + "#" + k);
    IndexAt(q, '#', k);
    assert "%" == ['%'] && "#" == ['#'];
  }

  lemma NumberAlone(gid: GID, qpn: uint32)
    ensures ResolveRest(gid, "0x" + FormatHex(qpn)) == Ok(Addr(gid, qpn, 0))
    ensures '#' !in "0x" + FormatHex(qpn)
  {
    hide FormatHex, ParseUint32, ReadDigits;
    FormatReads(qpn);
    Uint32RoundTrip(qpn);
  }

  lemma NumberAndKey(gid: GID, qpn: uint32, qkey: uint32)
    ensures ResolveRest(gid, ("0x" + FormatHex(qpn)) + ['#'] + ("0x" + FormatHex(qkey))) == Ok(Addr(gid, qpn, qkey))
  {
    hide FormatHex, ParseUint32;
    NumberAlone(gid, qpn);
    Uint32RoundTrip(qpn);
    Uint32RoundTrip(qkey);
    IndexAt("0x" + FormatHex(qpn), '#', "0x" + FormatHex(qkey));
  }

  /** Parsing what was printed recovers the GID, the QPN and the effective Q_Key, for every address. */
  lemma PrintResolves(a: Addr)
    ensures Resolve(Print(a)) == Ok(a.(qkey := if a.qkey == DEFAULT_QKEY then 0 else a.qkey))
    ensures Effective(Resolve(Print(a)).value) == Effective(a)
  {
    hide FormatHex, GidOf, GidString, ResolveRest;
    var rest := "0x" + FormatHex(a.qpn) + KeySuffix(a);
    GidRoundTrip(a.gid);
    IndexAt(GidString(a.gid), '%', rest);
    assert "%" == ['%'];
    NumberAlone(a.gid, a.qpn);
    NumberAndKey(a.gid, a.qpn, a.qkey);
    assert "0x" + FormatHex(a.qpn) + "" == "0x" + FormatHex(a.qpn);
    assert ("0x" + FormatHex(a.qpn)) + ['#'] + ("0x" + FormatHex(a.qkey))
        == "0x" + FormatHex(a.qpn) + ("#0x" + FormatHex(a.qkey));
  }

  /** The cache key: two addresses print alike exactly if they agree on GID, QPN and effective Q_Key. */
  lemma SameKey(a: Addr, b: Addr)
    ensures Print(a) == Print(b) <==> a.gid == b.gid && a.qpn == b.qpn && Effective(a) == Effective(b)
  {
    hide FormatHex, GidString, Resolve;
    PrintResolves(a);
    PrintResolves(b);
  }

  /** From whatever text an address was parsed, printing and parsing it gives an equivalent one and a stable text. */
  lemma Stable(s: string)
    requires Resolve(s).Ok?
    ensures var a := Resolve(s).value; var b := Resolve(Print(a));
            b.Ok? && b.value.gid == a.gid && b.value.qpn == a.qpn && Effective(b.value) == Effective(a)
            && Print(b.value) == Print(a)
  {
    hide Print, Resolve;
    var a := Resolve(s).value;
    PrintResolves(a);
    SameKey(a, Resolve(Print(a)).value);
  }
}
