/**
The FPGA core in QSPI: `install_rsu` writes it behind a 4 KB text header with its size in
hex, `read_qspi_core` reads it back through whichever MTD device holds the partition.
Bytes are characters '\0' .. '\U{FF}'.
*/
module CoreFraming {
  import opened Wrappers
  import opened Hexadecimal

  type Bytes = string

  const CORE_HEADER: nat := 0x1000

  // ---- writing ---------------------------------------------------------------------------

  function Zeros(n: nat): Bytes {
    seq(n, _ => '\0')
  }

  /** bytes.ljust: padded with NUL to `width`, never cut. */
  function PadTo(s: Bytes, width: nat): Bytes {
    s + Zeros(if |s| < width then width - |s| else 0)
  }

  function HeaderText(size: nat): string {
    "core_size=0x" + Hex(size) + "\n"
  }

  function Frame(core: Bytes): Bytes {
    PadTo(HeaderText(|core|), CORE_HEADER) + core
  }

  // ---- Python's text functions -----------------------------------------------------------

  predicate IsSpace(c: char) {
    '\t' <= c <= '\r' || '\U{1C}' <= c <= ' '
  }

  function StripLeft(s: string): string {
    if s != "" && IsSpace(s[0]) then StripLeft(s[1..]) else s
  }

  function StripRight(s: string): string {
    if s != "" && IsSpace(s[|s| - 1]) then StripRight(s[..|s| - 1]) else s
  }

  function Strip(s: string): string {
    StripRight(StripLeft(s))
  }

  /** split(c)[0] */
  function UpTo(s: string, c: char): string {
    if s == "" || s[0] == c then "" else [s[0]] + UpTo(s[1..], c)
  }

  /** what follows the first c */
  function After(s: string, c: char): Option<string> {
    if s == "" then None else if s[0] == c then Some(s[1..]) else After(s[1..], c)
  }

  function HexValue(c: char): Option<nat> {
    if '0' <= c <= '9' then Some((c - '0') as nat)
    else if 'a' <= c <= 'f' then Some((c - 'a') as nat + 10)
    else if 'A' <= c <= 'F' then Some((c - 'A') as nat + 10)
    else None
  }

  /** Digits with single underscores between them. */
  function HexNumber(s: string, acc: nat, afterDigit: bool): Option<nat> {
    if s == "" then (if afterDigit then Some(acc) else None)
    else if s[0] == '_' then (if afterDigit then HexNumber(s[1..], acc, false) else None)
    else match HexValue(s[0])
      case None => None
      case Some(v) => HexNumber(s[1..], 16 * acc + v, true)
  }

  function Unsigned16(s: string): Option<nat> {
    if |s| >= 2 && s[0] == '0' && (s[1] == 'x' || s[1] == 'X')
    then HexNumber(if |s| >= 3 && s[2] == '_' then s[3..] else s[2..], 0, false)
    else HexNumber(s, 0, false)
  }

  /** int(text, 16) */
  function Int16(text: string): Option<int> {
    var s := Strip(text);
    var signed := s != "" && (s[0] == '-' || s[0] == '+');
    match Unsigned16(if signed then s[1..] else s)
    case None => None
    case Some(n) => var i: int := n; Some(if signed && s[0] == '-' then -i else i)
  }

  // ---- reading ---------------------------------------------------------------------------

  /** The size in a header, if it can be read: the text up to the first NUL, and in it what
      stands between the first and the second "=". */
  function HeaderSize(head: Bytes): Option<int> {
    match After(Strip(UpTo(head, '\0')), '=')
    case None => None
    case Some(rest) => Int16(UpTo(rest, '='))
  }

  /** An MTD device: its place in the flash, and whether sysfs and /dev can be read. */
  datatype Mtd = Mtd(start: nat, size: nat, listed: bool, readable: bool)

  predicate Holds(m: Mtd, address: nat, length: nat) {
    m.listed && m.start <= address && address + length <= m.start + m.size
  }

  function Slice(flash: Bytes, address: nat, length: nat): (r: Bytes)
    ensures address + length <= |flash| ==> r == flash[address..address + length]
  {
    if address + length <= |flash| then flash[address..address + length]
    else if address <= |flash| then flash[address..]
    else ""
  }

  /** The first device in name order that holds the range decides. */
  function FlashAt(mtds: seq<Mtd>, flash: Bytes, address: nat, length: nat): Option<Bytes> {
    if mtds == [] then None
    else if !Holds(mtds[0], address, length) then FlashAt(mtds[1..], flash, address, length)
    else if mtds[0].readable then Some(Slice(flash, address, length))
    else None
  }

  method ReadFlash(mtds: seq<Mtd>, flash: Bytes, address: nat, length: nat) returns (r: Option<Bytes>)
    ensures r == FlashAt(mtds, flash, address, length)
    ensures r.Some? ==> exists m <- mtds :: Holds(m, address, length) && m.readable
    ensures (forall m <- mtds :: !Holds(m, address, length)) ==> r == None
  {
    for k := 0 to |mtds|
      invariant FlashAt(mtds, flash, address, length) == FlashAt(mtds[k..], flash, address, length)
      invariant forall j | 0 <= j < k :: !Holds(mtds[j], address, length)
    {
      var m := mtds[k];
      if m.listed && m.start <= address && address + length <= m.start + m.size {
        if m.readable {
          return Some(Slice(flash, address, length));
        }
        return None;
      }
      assert mtds[k..][1..] == mtds[k + 1..];
    }
    return None;
  }

  /** A partition in the table: offset and length. */
  type Spt = map<string, (nat, nat)>

  predicate StartsWith(s: string, prefix: string) {
    |prefix| <= |s| && s[..|prefix|] == prefix
  }

  function CorePartition(slot: string): string {
    "CORE." + (if StartsWith(slot, "FACTORY_IM") then "FACTORY_IM" else slot)
  }

  /** Only names of the factory image share a core partition. */
  lemma CorePartitionsApart(a: string, b: string)
    ensures CorePartition(a) == CorePartition(b) <==>
              a == b || (StartsWith(a, "FACTORY_IM") && StartsWith(b, "FACTORY_IM"))
  {
    assert CorePartition(a)[5..] == if StartsWith(a, "FACTORY_IM") then "FACTORY_IM" else a;
    assert CorePartition(b)[5..] == if StartsWith(b, "FACTORY_IM") then "FACTORY_IM" else b;
  }

  /** A slot's core has the slot's name with the prefix, but that a factory image's name is cut
      short. */
  lemma CorePartitionIs(slot: string)
    ensures CorePartition("P1") == "CORE.P1" && CorePartition("FACTORY_IMAGE") == "CORE.FACTORY_IM"
    ensures StartsWith(slot, "FACTORY_IM") ==> CorePartition(slot) == "CORE.FACTORY_IM"
    ensures !StartsWith(slot, "FACTORY_IM") ==> CorePartition(slot)[5..] == slot
    ensures StartsWith(CorePartition(slot), "CORE.")
  {
  }

  function QspiCore(spt: Spt, slot: string, mtds: seq<Mtd>, flash: Bytes): Option<Bytes> {
    if CorePartition(slot) !in spt then None
    else
      var (offset, length) := spt[CorePartition(slot)];
      match FlashAt(mtds, flash, offset, CORE_HEADER)
      case None => None
      case Some(head) =>
        if head == "" then None
        else match HeaderSize(head)
          case None => None
          case Some(size) =>
            if !(0 < size <= length - CORE_HEADER) then None
            else FlashAt(mtds, flash, offset + CORE_HEADER, size)
  }

  /** A partition that lies in the flash, within one of its devices. */
  predicate Reachable(mtds: seq<Mtd>, flash: Bytes, offset: nat, length: nat) {
    && CORE_HEADER <= length && offset + length <= |flash|
    && (exists m <- mtds :: Holds(m, offset, length)) && forall m <- mtds :: m.readable
  }

  /** The header at `offset` promises a core of n bytes that fits its partition. */
  predicate Promises(flash: Bytes, offset: nat, length: nat, n: int)
    requires CORE_HEADER <= length && offset + length <= |flash|
  {
    HeaderSize(flash[offset..offset + CORE_HEADER]) == Some(n) && 0 < n <= length - CORE_HEADER
  }

  /** What a caller may rely on: a core that is returned is neither empty nor longer than its
      partition has room for, it has the size that its header promises, and it is what stands
      behind the header; and in a partition that can be read there is one exactly if the header
      promises one. */
  method ReadQspiCore(spt: Spt, slot: string, mtds: seq<Mtd>, flash: Bytes) returns (r: Option<Bytes>)
    ensures r == QspiCore(spt, slot, mtds, flash)
    ensures r.Some? ==> CorePartition(slot) in spt
    ensures CorePartition(slot) in spt ==>
              var (offset, length) := spt[CorePartition(slot)];
              && (CORE_HEADER <= length && offset + length <= |flash| && r.Some? ==>
                    && Promises(flash, offset, length, |r.value|)
                    && r.value == flash[offset + CORE_HEADER..offset + CORE_HEADER + |r.value|])
              && (Reachable(mtds, flash, offset, length) ==>
                    (r.Some? <==> exists n | 0 < n <= length - CORE_HEADER :: Promises(flash, offset, length, n)))
  {
    if CorePartition(slot) in spt {
      var (offset, length) := spt[CorePartition(slot)];
      if CORE_HEADER <= length && offset + length <= |flash| {
        CoreIsPromised(spt, slot, mtds, flash);
      }
    }
    if CorePartition(slot) !in spt {
      return None;
    }
    var (offset, length) := spt[CorePartition(slot)];
    var head := ReadFlash(mtds, flash, offset, CORE_HEADER);
    if head.None? || head.value == "" {
      return None;
    }
    var size := HeaderSize(head.value);
    if size.None? || !(0 < size.value <= length - CORE_HEADER) {
      return None;
    }
    r := ReadFlash(mtds, flash, offset + CORE_HEADER, size.value);
  }

  lemma CoreIsPromised(spt: Spt, slot: string, mtds: seq<Mtd>, flash: Bytes)
    requires CorePartition(slot) in spt
    requires var (offset, length) := spt[CorePartition(slot)]; CORE_HEADER <= length && offset + length <= |flash|
    ensures var (offset, length) := spt[CorePartition(slot)];
            var r := QspiCore(spt, slot, mtds, flash);
            && (r.Some? ==>
                  && Promises(flash, offset, length, |r.value|)
                  && r.value == flash[offset + CORE_HEADER..offset + CORE_HEADER + |r.value|])
            && (Reachable(mtds, flash, offset, length) ==>
                  (r.Some? <==> exists n | 0 < n <= length - CORE_HEADER :: Promises(flash, offset, length, n)))
  {
    var (offset, length) := spt[CorePartition(slot)];
    var reach := Reachable(mtds, flash, offset, length);
    if reach {
      var m :| m in mtds && Holds(m, offset, length);
      assert Holds(m, offset, CORE_HEADER);
      SomeDeviceReads(mtds, flash, offset, CORE_HEADER);
    }
    if FlashAt(mtds, flash, offset, CORE_HEADER).Some? {
      FlashIs(mtds, flash, offset, CORE_HEADER);
      var size := HeaderSize(flash[offset..offset + CORE_HEADER]);
      if size.Some? && 0 < size.value <= length - CORE_HEADER {
        CoreBehind(mtds, flash, offset, length, size.value);
      }
    }
  }

  lemma CoreBehind(mtds: seq<Mtd>, flash: Bytes, offset: nat, length: nat, n: nat)
    requires CORE_HEADER + n <= length && offset + length <= |flash|
    ensures var r := FlashAt(mtds, flash, offset + CORE_HEADER, n);
            && (r.Some? ==> r == Some(flash[offset + CORE_HEADER..offset + CORE_HEADER + n]))
            && (Reachable(mtds, flash, offset, length) ==> r.Some?)
  {
    if Reachable(mtds, flash, offset, length) {
      var m :| m in mtds && Holds(m, offset, length);
      assert Holds(m, offset + CORE_HEADER, n);
      SomeDeviceReads(mtds, flash, offset + CORE_HEADER, n);
    }
    if FlashAt(mtds, flash, offset + CORE_HEADER, n).Some? {
      FlashIs(mtds, flash, offset + CORE_HEADER, n);
    }
  }

  // ---- the round trip --------------------------------------------------------------------

  lemma {:induction false} HexReadsBack(n: nat, rest: string)
    ensures HexNumber(Hex(n) + rest, 0, false) == HexNumber(rest, n, true)
  {
    if n < 16 {
      assert ([HexDigit(n)] + rest)[1..] == rest;
    } else {
      var d := HexDigit(n % 16);
      assert Hex(n) + rest == Hex(n / 16) + ([d] + rest);
      HexReadsBack(n / 16, [d] + rest);
      assert ([d] + rest)[1..] == rest;
    }
  }

  predicate Printable(s: string) {
    forall c <- s :: '!' <= c && c != '='
  }

  lemma {:induction false} HexIsPrintable(n: nat)
    ensures Hex(n) != "" && Printable(Hex(n))
    ensures forall c <- Hex(n) :: HexValue(c).Some? && c != '_' && c != '+' && c != '-'
  {
    if n >= 16 {
      HexIsPrintable(n / 16);
    }
  }

  lemma {:induction false} UpToStops(s: string, c: char, rest: string)
    requires c !in s
    ensures UpTo(s + [c] + rest, c) == s && UpTo(s, c) == s
    ensures After(s + [c] + rest, c) == Some(rest)
  {
    if s == "" {
      assert ("" + [c] + rest)[1..] == rest;
    } else {
      assert (s + [c] + rest)[1..] == s[1..] + [c] + rest;
      UpToStops(s[1..], c, rest);
    }
  }

  lemma StripLine(s: string)
    requires s != "" && '!' <= s[0] && '!' <= s[|s| - 1]
    ensures Strip(s + "\n") == s && Strip(s) == s
  {
    var line := s + "\n";
    assert !IsSpace(line[0]) && IsSpace(line[|line| - 1]);
    assert line[..|line| - 1] == s;
    assert StripRight(line) == StripRight(s) == s;
  }

  lemma NumberReadsBack(size: nat)
    ensures Int16("0x" + Hex(size)) == Some(size)
  {
    var h := Hex(size);
    var number := "0x" + h;
    HexIsPrintable(size);
    assert number[|number| - 1] == h[|h| - 1] && h[|h| - 1] in h;
    StripLine(number);
    assert number[2..] == h && h[0] in h && number[2] == h[0];
    HexReadsBack(size, "");
    assert h + "" == h;
  }

  /** "key=value": the value is what stands after the "=". */
  lemma FieldReadsBack(key: string, value: string)
    requires Printable(key) && Printable(value)
    ensures After(key + ['='] + value, '=') == Some(value) && UpTo(value, '=') == value
  {
    UpToStops(key, '=', value);
    UpToStops(value, '=', "");
  }

  lemma NoNul(key: string, value: string)
    requires Printable(key) && Printable(value)
    ensures '\0' !in key + ['='] + value + "\n"
  {
  }

  lemma HeaderReadsBack(size: nat, pad: nat)
    requires pad > 0
    ensures HeaderSize(HeaderText(size) + Zeros(pad)) == Some(size)
  {
    var key, number := "core_size", "0x" + Hex(size);
    var text := key + ['='] + number;
    var line := HeaderText(size);
    HexIsPrintable(size);
    assert line == text + "\n";
    assert number[|number| - 1] == Hex(size)[|Hex(size)| - 1];
    StripLine(text);
    NoNul(key, number);
    FieldReadsBack(key, number);
    NumberReadsBack(size);
    assert line + Zeros(pad) == line + ['\0'] + Zeros(pad - 1);
    UpToStops(line, '\0', Zeros(pad - 1));
  }

  /** Main result. A non-empty core framed into its partition is read back exactly, whatever
      follows it in the flash and however the flash is split into MTD devices, as long as one
      device holds the partition and the devices can be read. */
  lemma FramedCoreReadsBack(spt: Spt, slot: string, mtds: seq<Mtd>, flash: Bytes, core: Bytes)
    requires core != ""
    requires CorePartition(slot) in spt && spt[CorePartition(slot)].1 < 0x1_0000_0000  // a 32-bit field
    requires var (offset, length) := spt[CorePartition(slot)];
             && |Frame(core)| <= length && offset + |Frame(core)| <= |flash|
             && flash[offset..offset + |Frame(core)|] == Frame(core)
             && exists m <- mtds :: Holds(m, offset, length)
    requires forall m <- mtds :: m.readable
    ensures QspiCore(spt, slot, mtds, flash) == Some(core)
  {
    var (offset, length) := spt[CorePartition(slot)];
    var text := HeaderText(|core|);
    assert Pow16(8) == 256 * Pow16(6) == 0x1_0000 * Pow16(4) == 0x1_0000_0000;
    HexLength(|core|, 8);
    var pad := CORE_HEADER - |text|;
    var head := text + Zeros(pad);
    assert Frame(core) == head + core;
    assert flash[offset..offset + CORE_HEADER] == Frame(core)[..CORE_HEADER] == head;
    assert flash[offset + CORE_HEADER..offset + |Frame(core)|] == Frame(core)[CORE_HEADER..] == core;
    var m :| m in mtds && Holds(m, offset, length);
    assert Holds(m, offset, CORE_HEADER) && Holds(m, offset + CORE_HEADER, |core|);
    SomeDeviceReads(mtds, flash, offset, CORE_HEADER);
    SomeDeviceReads(mtds, flash, offset + CORE_HEADER, |core|);
    FlashIs(mtds, flash, offset, CORE_HEADER);
    FlashIs(mtds, flash, offset + CORE_HEADER, |core|);
    HeaderReadsBack(|core|, pad);
  }

  lemma {:induction false} SomeDeviceReads(mtds: seq<Mtd>, flash: Bytes, address: nat, length: nat)
    requires exists m <- mtds :: Holds(m, address, length)
    requires forall m <- mtds :: m.readable
    ensures FlashAt(mtds, flash, address, length).Some?
  {
    if !Holds(mtds[0], address, length) {
      SomeDeviceReads(mtds[1..], flash, address, length);
    }
  }

  lemma {:induction false} FlashIs(mtds: seq<Mtd>, flash: Bytes, address: nat, length: nat)
    requires FlashAt(mtds, flash, address, length).Some? && address + length <= |flash|
    ensures FlashAt(mtds, flash, address, length) == Some(flash[address..address + length])
  {
    if !Holds(mtds[0], address, length) {
      FlashIs(mtds[1..], flash, address, length);
    }
  }

  lemma EmptyFrame()
    ensures |Frame("")| == CORE_HEADER && HeaderSize(Frame("")) == Some(0)
  {
    HexLength(0, 1);
    var pad := CORE_HEADER - |HeaderText(0)|;
    assert Frame("") == HeaderText(0) + Zeros(pad);
    HeaderReadsBack(0, pad);
  }

  /** An empty core is not read back as one: its header says size 0. */
  lemma EmptyCoreIsNone(spt: Spt, slot: string, mtds: seq<Mtd>, flash: Bytes)
    requires CorePartition(slot) in spt
    requires var (offset, length) := spt[CorePartition(slot)];
             offset + |Frame("")| <= |flash| && flash[offset..offset + |Frame("")|] == Frame("")
    ensures QspiCore(spt, slot, mtds, flash) == None
  {
    var (offset, length) := spt[CorePartition(slot)];
    EmptyFrame();
    if FlashAt(mtds, flash, offset, CORE_HEADER).Some? {
      FlashIs(mtds, flash, offset, CORE_HEADER);
    }
  }
}
