/** Motorola S-records: the reader and the writer. */

module SRecord {
  import opened Words

  type U32 = x: int | 0 <= x < 0x1_0000_0000

  datatype Record =
    | Header(data: seq<Byte>)
    | Data(address: U32, data: seq<Byte>)
    | End(entry: U32)
    | Count(count: nat)

  datatype SrecFile = SrecFile(records: seq<Record>, entry: Option<U32>)

  datatype Problem =
    | NoPrefix | TooShort | InvalidHex | EmptyRecord | ByteCount | Checksum | PayloadTooShort | UnknownType

  datatype Failure = At(line: nat, problem: Problem)

  // ---- Hexadecimal ----

  const DIGITS: string := "0123456789ABCDEF"

  function Hex(bytes: seq<Byte>): string
    decreases bytes
  {
    if bytes == [] then [] else Hex(bytes[..|bytes| - 1]) + HexByte(bytes[|bytes| - 1])
  }

  function HexByte(b: Byte): (s: string)
    ensures |s| == 2
  {
    [DIGITS[b / 16], DIGITS[b % 16]]
  }

  function Nibble(c: char): Option<Byte> {
    if '0' <= c <= '9' then Some(c as int - '0' as int)
    else if 'A' <= c <= 'F' then Some(c as int - 'A' as int + 10)
    else if 'a' <= c <= 'f' then Some(c as int - 'a' as int + 10)
    else None
  }

  /** The bytes a string of digit pairs stands for. */
  function Unhex(s: string): Option<seq<Byte>>
    decreases s
  {
    if s == [] then Some([])
    else if |s| == 1 then None
    else
      var front, hi, lo := Unhex(s[..|s| - 2]), Nibble(s[|s| - 2]), Nibble(s[|s| - 1]);
      if front.None? || hi.None? || lo.None? || hi.value > 15 || lo.value > 15 then None
      else Some(front.value + [hi.value * 16 + lo.value])
  }

  lemma NibbleRange(c: char)
    ensures Nibble(c).Some? ==> Nibble(c).value <= 15
  {
  }

  lemma UnhexEven(s: string)
    ensures Unhex(s).Some? ==> |s| == 2 * |Unhex(s).value|
    decreases s
  {
    if |s| > 1 {
      UnhexEven(s[..|s| - 2]);
    }
  }

  method HexDecode(s: string) returns (r: Option<seq<Byte>>)
    ensures r == Unhex(s)
  {
    hide Nibble;
    UnhexEven(s);
    if |s| % 2 != 0 {
      return None;
    }
    var out := [];
    var i := 0;
    while i < |s|
      invariant i <= |s| && i % 2 == 0 && Unhex(s[..i]) == Some(out)
    {
      assert s[..i + 2][..i] == s[..i];
      var hi := Nibble(s[i]);
      if hi.None? {
        UnhexFails(s, i);
        return None;
      }
      var lo := Nibble(s[i + 1]);
      if lo.None? {
        UnhexFails(s, i);
        return None;
      }
      NibbleRange(s[i]);
      NibbleRange(s[i + 1]);
      out := out + [hi.value * 16 + lo.value];
      i := i + 2;
    }
    assert s[..i] == s;
    return Some(out);
  }

  lemma {:induction false} UnhexFails(s: string, i: nat)
    requires i + 2 <= |s| && i % 2 == 0 && |s| % 2 == 0 && (Nibble(s[i]).None? || Nibble(s[i + 1]).None?)
    ensures Unhex(s) == None
    decreases s
  {
    if i + 2 < |s| {
      UnhexFails(s[..|s| - 2], i);
    }
  }

  lemma HexBytePair(b: Byte) returns (hi: Byte, lo: Byte)
    ensures var s := HexByte(b); Nibble(s[0]) == Some(hi) && Nibble(s[1]) == Some(lo)
    ensures hi <= 15 && lo <= 15 && hi * 16 + lo == b
  {
    assert forall d :: 0 <= d < 16 ==> Nibble(DIGITS[d]) == Some(d);
    hi, lo := b / 16, b % 16;
  }

  /** Reading back what was printed. */
  lemma {:induction false} HexRoundTrip(bytes: seq<Byte>)
    ensures Unhex(Hex(bytes)) == Some(bytes) && |Hex(bytes)| == 2 * |bytes|
    decreases bytes
  {
    hide Unhex, Hex, HexByte, Nibble;
    if bytes == [] {
      HexNone();
    } else {
      var front, b := bytes[..|bytes| - 1], bytes[|bytes| - 1];
      HexRoundTrip(front);
      HexPush(front, b);
      assert front + [b] == bytes;
    }
  }

  lemma HexNone()
    ensures Hex([]) == [] && Unhex([]) == Some([])
  {
  }

  lemma HexPush(front: seq<Byte>, b: Byte)
    requires Unhex(Hex(front)) == Some(front)
    ensures |Hex(front + [b])| == |Hex(front)| + 2
    ensures Unhex(Hex(front + [b])) == Some(front + [b])
  {
    var hi, lo := HexBytePair(b);
    hide HexByte, Nibble, Unhex;
    assert (front + [b])[..|front|] == front;
    UnhexPush(Hex(front), HexByte(b)[0], HexByte(b)[1]);
    assert Hex(front + [b]) == Hex(front) + [HexByte(b)[0], HexByte(b)[1]];
  }

  lemma UnhexPush(s: string, hi: char, lo: char)
    requires Unhex(s).Some? && Nibble(hi).Some? && Nibble(lo).Some? && Nibble(hi).value <= 15 && Nibble(lo).value <= 15
    ensures Unhex(s + [hi, lo]) == Some(Unhex(s).value + [Nibble(hi).value * 16 + Nibble(lo).value])
  {
    hide Nibble, Unhex;
    var t := s + [hi, lo];
    UnhexLast(t);
    assert t[|t| - 2] == hi && t[|t| - 1] == lo && t[..|t| - 2] == s;
  }

  lemma UnhexLast(t: string)
    requires |t| >= 2
    ensures var front, hi, lo := Unhex(t[..|t| - 2]), Nibble(t[|t| - 2]), Nibble(t[|t| - 1]);
      front.Some? && hi.Some? && lo.Some? && hi.value <= 15 && lo.value <= 15 ==>
        Unhex(t) == Some(front.value + [hi.value * 16 + lo.value])
  {
    hide Nibble;
  }

  // ---- One record ----

  /** The running 8-bit sum. */
  function Sum(bytes: seq<Byte>): Byte
    decreases bytes
  {
    if bytes == [] then 0 else (Sum(bytes[..|bytes| - 1]) + bytes[|bytes| - 1]) % 256
  }

  /** The count, the payload and the checksum that a payload is framed with. */
  function Framed(payload: seq<Byte>): seq<Byte>
    requires |payload| < 255
  {
    var body: seq<Byte> := [|payload| + 1] + payload;
    body + [255 - Sum(body)]
  }

  /** The payload of a frame whose count and checksum agree. */
  function Unframed(bytes: seq<Byte>): Result<seq<Byte>, Failure> {
    if bytes == [] then Err(At(0, EmptyRecord))
    else if |bytes| - 1 != bytes[0] then Err(At(0, ByteCount))
    else if Sum(bytes) != 255 then Err(At(0, Checksum))
    else if |bytes| < 2 then Err(At(0, Checksum))
    else Ok(bytes[1..|bytes| - 1])
  }

  function BigEndian(bytes: seq<Byte>, n: nat): (v: U32)
    requires 2 <= n <= 4 && n <= |bytes|
    ensures n == 2 ==> v < 0x1_0000
    ensures n == 3 ==> v < 0x100_0000
  {
    var b0: int, b1: int := bytes[0], bytes[1];
    if n == 2 then b0 * 0x100 + b1
    else
      var b2: int := bytes[2];
      if n == 3 then b0 * 0x1_0000 + b1 * 0x100 + b2
      else
        var b3: int := bytes[3];
        b0 * 0x100_0000 + b1 * 0x1_0000 + b2 * 0x100 + b3
  }

  /** The bytes of the address a record type carries. */
  function AddressWidth(t: char): (w: Option<nat>)
    ensures w.Some? ==> 2 <= w.value <= 4
  {
    if t == '0' || t == '1' || t == '5' || t == '9' then Some(2)
    else if t == '2' || t == '8' then Some(3)
    else if t == '3' || t == '7' then Some(4)
    else None
  }

  function Interpret(t: char, payload: seq<Byte>): Result<Record, Failure> {
    var w := AddressWidth(t);
    if w.None? then Err(At(0, UnknownType))
    else if |payload| < w.value then Err(At(0, PayloadTooShort))
    else
      Ok(Meaning(t, BigEndian(payload, w.value), payload[w.value..]))
  }

  function Meaning(t: char, address: U32, rest: seq<Byte>): Record {
    if t == '0' then Header(rest)
    else if t == '5' then Count(address)
    else if t == '7' || t == '8' || t == '9' then End(address)
    else Data(address, rest)
  }

  function ParseLine(line: string): Result<Record, Failure> {
    if |line| < 4 then Err(At(0, TooShort))
    else
      var bytes := Unhex(line[2..]);
      if bytes.None? then Err(At(0, InvalidHex))
      else
        var payload := Unframed(bytes.value);
        if payload.Err? then Err(At(0, payload.error.problem)) else Interpret(line[1], payload.value)
  }

  lemma SumPush(bytes: seq<Byte>, b: Byte)
    ensures Sum(bytes + [b]) == (Sum(bytes) + b) % 256
  {
    assert (bytes + [b])[..|bytes|] == bytes;
  }

  /** A frame is accepted, and gives a payload, exactly when it is that payload's framing. */
  lemma UnframedIff(bytes: seq<Byte>, payload: seq<Byte>)
    ensures Unframed(bytes) == Ok(payload) <==> |payload| < 255 && bytes == Framed(payload)
  {
    if |payload| < 255 {
      var body: seq<Byte> := [|payload| + 1] + payload;
      SumPush(body, 255 - Sum(body));
      assert Framed(payload)[1..|payload| + 1] == payload;
    }
    if Unframed(bytes) == Ok(payload) {
      var body: seq<Byte> := bytes[..|bytes| - 1];
      assert body == [bytes[0]] + payload;
      assert bytes == body + [bytes[|bytes| - 1]];
      SumPush(body, bytes[|bytes| - 1]);
    }
  }

  lemma {:induction false} SumChange(bytes: seq<Byte>, i: nat, x: Byte)
    requires i < |bytes|
    ensures Sum(bytes[i := x]) == (Sum(bytes) + x - bytes[i]) % 256
    decreases bytes
  {
    var n := |bytes| - 1;
    if i < n {
      SumChange(bytes[..n], i, x);
      assert bytes[i := x][..n] == bytes[..n][i := x];
      SumCommutes(Sum(bytes[..n]), bytes[n], x - bytes[i]);
    } else {
      assert bytes[i := x][..n] == bytes[..n];
      ModReplace(Sum(bytes[..n]), bytes[n], x);
    }
  }

  lemma SumCommutes(s: Byte, b: Byte, d: int)
    ensures ((s + d) % 256 + b) % 256 == ((s + b) % 256 + d) % 256
  {
  }

  lemma ModReplace(s: Byte, b: Byte, x: Byte)
    ensures (s + x) % 256 == ((s + b) % 256 + x - b) % 256
  {
  }

  /** Changing any one decoded byte of an accepted record makes it rejected. */
  lemma CorruptionDetected(line: string, corrupt: string, bytes: seq<Byte>, i: nat, x: Byte)
    requires ParseLine(line).Ok? && Unhex(line[2..]) == Some(bytes)
    requires i < |bytes| && x != bytes[i] && |corrupt| >= 4 && Unhex(corrupt[2..]) == Some(bytes[i := x])
    ensures ParseLine(corrupt).Err?
  {
    hide Unhex, Interpret, Sum;
    SumChange(bytes, i, x);
  }

  // ---- Files ----

  predicate IsSpace(c: char) {
    c == ' ' || '\t' <= c <= '\r'
  }

  function TrimStart(s: string): string
    decreases s
  {
    if s != [] && IsSpace(s[0]) then TrimStart(s[1..]) else s
  }

  function TrimEnd(s: string): string
    decreases s
  {
    if s != [] && IsSpace(s[|s| - 1]) then TrimEnd(s[..|s| - 1]) else s
  }

  function Trim(s: string): string {
    TrimEnd(TrimStart(s))
  }

  /** The end of the line that contains a position. */
  function LineEnd(text: string, i: nat): (k: nat)
    requires i <= |text|
    ensures i <= k <= |text| && (k < |text| ==> text[k] == '\n') && forall j :: i <= j < k ==> text[j] != '\n'
    decreases |text| - i
  {
    if i == |text| || text[i] == '\n' then i else LineEnd(text, i + 1)
  }

  function StripReturn(s: string): string {
    if s != [] && s[|s| - 1] == '\r' then s[..|s| - 1] else s
  }

  function Lines(text: string): seq<string>
    decreases text
  {
    if text == [] then []
    else
      var k := LineEnd(text, 0);
      [StripReturn(text[..k])] + if k < |text| then Lines(text[k + 1..]) else []
  }

  /** The file read so far: blank lines are skipped, the last end record gives the entry. */
  function ParseLines(lines: seq<string>): Result<SrecFile, Failure>
    decreases lines
  {
    if lines == [] then Ok(SrecFile([], None))
    else
      var file := ParseLines(lines[..|lines| - 1]);
      var line := Trim(lines[|lines| - 1]);
      if file.Err? || line == [] then file
      else if line[0] != 'S' && line[0] != 's' then Err(At(|lines|, NoPrefix))
      else
        var record := ParseLine(line);
        if record.Err? then Err(At(|lines|, record.error.problem))
        else Ok(SrecFile(file.value.records + [record.value],
                         if record.value.End? then Some(record.value.entry) else file.value.entry))
  }

  method Parse(text: string) returns (r: Result<SrecFile, Failure>)
    ensures r == ParseLines(Lines(text))
  {
    hide Lines, Trim, ParseLine;
    var lines := Lines(text);
    var records, entry := [], None;
    for lineno := 0 to |lines|
      invariant ParseLines(lines[..lineno]) == Ok(SrecFile(records, entry))
    {
      assert lines[..lineno + 1][..lineno] == lines[..lineno];
      var line := Trim(lines[lineno]);
      if line != [] {
        if line[0] != 'S' && line[0] != 's' {
          ParseStops(lines, lineno + 1);
          return Err(At(lineno + 1, NoPrefix));
        }
        var record := ParseLine(line);
        if record.Err? {
          ParseStops(lines, lineno + 1);
          return Err(At(lineno + 1, record.error.problem));
        }
        if record.value.End? {
          entry := Some(record.value.entry);
        }
        records := records + [record.value];
      }
    }
    assert lines[..|lines|] == lines;
    return Ok(SrecFile(records, entry));
  }

  /** The first bad line decides. */
  lemma {:induction false} ParseStops(lines: seq<string>, n: nat)
    requires n <= |lines| && ParseLines(lines[..n]).Err?
    ensures ParseLines(lines) == ParseLines(lines[..n])
    decreases |lines|
  {
    if n == |lines| {
      assert lines[..n] == lines;
    } else {
      var front := lines[..|lines| - 1];
      assert front[..n] == lines[..n];
      ParseStops(front, n);
    }
  }

  // ---- The writer ----

  const CHUNK := 32
  const LIMIT24 := 0x100_0000
  const ANKA: seq<Byte> := [0x41, 0x4E, 0x4B, 0x41]

  function Line(t: char, payload: seq<Byte>): string
    requires |payload| < 255
  {
    ['S', t] + Hex(Framed(payload))
  }

  function Address24(a: U32): (r: seq<Byte>)
    ensures |r| == 3
  {
    [a / 0x1_0000 % 0x100, a / 0x100 % 0x100, a % 0x100]
  }

  function Count16(n: nat): (r: seq<Byte>)
    requires n < 0x1_0000
    ensures |r| == 2
  {
    [n / 0x100, n % 0x100]
  }

  lemma PushHex(bytes: seq<Byte>, b: Byte)
    ensures Hex(bytes + [b]) == Hex(bytes) + HexByte(b)
  {
    assert (bytes + [b])[..|bytes|] == bytes;
  }

  /** Print a record: its type, its count, then each payload byte with a running sum, then the checksum. */
  method MakeRecord(t: char, payload: seq<Byte>) returns (hex: string)
    requires |payload| < 255
    ensures hex == Line(t, payload)
  {
    hide HexByte, Hex, Sum;
    var count: Byte := |payload| + 1;
    var sum: Byte := count;
    ghost var body: seq<Byte> := [count];
    assert Hex([]) == [] && Sum([]) == 0 by {
      SumNone();
    }
    PushHex([], count);
    SumPush([], count);
    assert [] + [count] == body;
    hex := ['S', t] + HexByte(count);
    for i := 0 to |payload|
      invariant body == [count] + payload[..i] && hex == ['S', t] + Hex(body) && sum == Sum(body)
    {
      PushHex(body, payload[i]);
      SumPush(body, payload[i]);
      hex := hex + HexByte(payload[i]);
      sum := (sum + payload[i]) % 256;
      body := body + [payload[i]];
    }
    assert payload[..|payload|] == payload;
    PushHex(body, 255 - sum);
    hex := hex + HexByte(255 - sum);
  }

  lemma SumNone()
    ensures Hex([]) == [] && Sum([]) == 0
  {
  }

  function Chunks(data: seq<Byte>): nat {
    (|data| + CHUNK - 1) / CHUNK
  }

  function Chunk(data: seq<Byte>, k: nat): (c: seq<Byte>)
    requires k < Chunks(data)
    ensures |c| <= CHUNK
  {
    data[CHUNK * k..if CHUNK * (k + 1) <= |data| then CHUNK * (k + 1) else |data|]
  }

  /** No 32-bit address and no 16-bit record count overflows. */
  predicate Printable(data: seq<Byte>, base: U32) {
    Chunks(data) < 0x1_0000 && base + CHUNK * Chunks(data) <= 0x1_0000_0000
  }

  function DataLine(data: seq<Byte>, base: U32, k: nat): string
    requires Printable(data, base) && k < Chunks(data)
  {
    Line('2', Address24(base + CHUNK * k) + Chunk(data, k))
  }

  function FirstLines(data: seq<Byte>, base: U32, n: nat): (lines: seq<string>)
    requires Printable(data, base) && n <= Chunks(data)
  {
    if n == 0 then [Line('0', [0, 0] + ANKA)] else FirstLines(data, base, n - 1) + [DataLine(data, base, n - 1)]
  }

  function WrittenLines(data: seq<Byte>, base: U32, entry: U32): seq<string>
    requires Printable(data, base)
  {
    FirstLines(data, base, Chunks(data)) + [Line('5', Count16(Chunks(data)))] + [Line('8', Address24(entry))]
  }

  function Unlines(lines: seq<string>): string
    decreases lines
  {
    if lines == [] then [] else Unlines(lines[..|lines| - 1]) + lines[|lines| - 1] + ['\n']
  }

  lemma UnlinesPush(lines: seq<string>, line: string)
    ensures Unlines(lines + [line]) == Unlines(lines) + line + ['\n']
  {
    assert (lines + [line])[..|lines|] == lines;
  }

  method Write(data: seq<Byte>, base: U32, entry: U32) returns (out: string)
    requires Printable(data, base)
    ensures out == Unlines(WrittenLines(data, base, entry))
  {
    hide Line, Address24, Count16, Unlines;
    var s0 := MakeRecord('0', [0, 0] + ANKA);
    UnlinesPush([], s0);
    assert [] + [s0] == [s0];
    out := s0 + ['\n'];
    assert out == Unlines([s0]) by {
      UnlinesNone();
    }
    var count := 0;
    while count < Chunks(data)
      invariant count <= Chunks(data) && out == Unlines(FirstLines(data, base, count))
    {
      var s2 := MakeRecord('2', Address24(base + CHUNK * count) + Chunk(data, count));
      UnlinesPush(FirstLines(data, base, count), s2);
      out := out + s2 + ['\n'];
      count := count + 1;
    }
    var first := FirstLines(data, base, count);
    var s5 := MakeRecord('5', Count16(count));
    UnlinesPush(first, s5);
    out := out + s5 + ['\n'];
    var s8 := MakeRecord('8', Address24(entry));
    UnlinesPush(first + [s5], s8);
    out := out + s8 + ['\n'];
  }

  lemma UnlinesNone()
    ensures Unlines([]) == []
  {
  }

  // ---- The round trip ----

  /** A line that needs no trimming and holds no line break. */
  ghost predicate Clean(line: string) {
    line != [] && line[0] == 'S' && forall i :: 0 <= i < |line| ==> !IsSpace(line[i])
  }

  lemma {:induction false} HexIsClean(bytes: seq<Byte>)
    ensures forall i :: 0 <= i < |Hex(bytes)| ==> !IsSpace(Hex(bytes)[i])
    decreases bytes
  {
    if bytes != [] {
      HexIsClean(bytes[..|bytes| - 1]);
      DigitsAreClean(bytes[|bytes| - 1]);
      hide HexByte, IsSpace;
    }
  }

  lemma DigitsAreClean(b: Byte)
    ensures !IsSpace(HexByte(b)[0]) && !IsSpace(HexByte(b)[1])
  {
    assert forall d :: 0 <= d < 16 ==> !IsSpace(DIGITS[d]);
  }

  lemma LineIsClean(t: char, payload: seq<Byte>)
    requires |payload| < 255 && !IsSpace(t)
    ensures Clean(Line(t, payload)) && Trim(Line(t, payload)) == Line(t, payload)
  {
    HexIsClean(Framed(payload));
    hide Hex, Framed;
  }

  /** A printed record reads back as its payload's meaning. */
  lemma LineReadsBack(t: char, payload: seq<Byte>)
    requires |payload| < 255
    ensures ParseLine(Line(t, payload)) == Interpret(t, payload)
  {
    hide Hex, Unhex, Framed, Unframed, Interpret;
    var line := Line(t, payload);
    HexRoundTrip(Framed(payload));
    UnframedIff(Framed(payload), payload);
    FramedLong(payload);
    assert line[2..] == Hex(Framed(payload));
  }

  lemma FramedLong(payload: seq<Byte>)
    requires |payload| < 255
    ensures |Framed(payload)| >= 2
  {
  }

  lemma FirstLine(line: string, rest: string)
    requires Clean(line)
    ensures Lines(line + ['\n'] + rest) == [line] + Lines(rest)
  {
    var text := line + ['\n'] + rest;
    assert text[|line|] == '\n' && forall i :: 0 <= i < |line| ==> text[i] == line[i];
    assert text[..|line|] == line && text[|line| + 1..] == rest;
  }

  lemma {:induction false} UnlinesFront(line: string, lines: seq<string>)
    ensures Unlines([line] + lines) == line + ['\n'] + Unlines(lines)
    decreases lines
  {
    if lines == [] {
      assert [line] + lines == [] + [line];
      UnlinesPush([], line);
    } else {
      var front, last := lines[..|lines| - 1], lines[|lines| - 1];
      UnlinesFront(line, front);
      assert [line] + lines == ([line] + front) + [last];
      UnlinesPush([line] + front, last);
    }
  }

  lemma {:induction false} LinesRoundTrip(lines: seq<string>)
    requires forall i :: 0 <= i < |lines| ==> Clean(lines[i])
    ensures Lines(Unlines(lines)) == lines
    decreases lines
  {
    if lines != [] {
      hide Lines, Unlines, Clean;
      assert lines == [lines[0]] + lines[1..];
      UnlinesFront(lines[0], lines[1..]);
      FirstLine(lines[0], Unlines(lines[1..]));
      LinesRoundTrip(lines[1..]);
    }
  }

  function DataRecord(data: seq<Byte>, base: U32, k: nat): Record
    requires k < Chunks(data)
  {
    Data((base + CHUNK * k) % LIMIT24, Chunk(data, k))
  }

  function DataRecords(data: seq<Byte>, base: U32, n: nat): (r: seq<Record>)
    requires n <= Chunks(data)
    ensures |r| == n && forall k :: 0 <= k < n ==> r[k] == DataRecord(data, base, k)
  {
    seq(n, k requires 0 <= k < n => DataRecord(data, base, k))
  }

  lemma AddressReadsBack(a: U32, rest: seq<Byte>)
    ensures BigEndian(Address24(a) + rest, 3) == a % LIMIT24
  {
    var hi, mid, lo := a / 0x1_0000, a / 0x100, a % 0x100;
    assert a == mid * 0x100 + lo;
    assert mid == hi * 0x100 + mid % 0x100;
    assert hi == hi / 0x100 * 0x100 + hi % 0x100;
    assert a == hi / 0x100 * LIMIT24 + (hi % 0x100 * 0x1_0000 + mid % 0x100 * 0x100 + lo);
  }

  lemma RecordsReadBack(data: seq<Byte>, base: U32, k: nat)
    requires Printable(data, base) && k < Chunks(data)
    ensures ParseLine(DataLine(data, base, k)) == Ok(DataRecord(data, base, k))
    ensures Clean(DataLine(data, base, k)) && Trim(DataLine(data, base, k)) == DataLine(data, base, k)
  {
    hide Line, BigEndian, Address24, Trim, Chunk, Clean, ParseLine;
    var payload := Address24(base + CHUNK * k) + Chunk(data, k);
    AddressReadsBack(base + CHUNK * k, Chunk(data, k));
    LineReadsBack('2', payload);
    LineIsClean('2', payload);
    assert payload[3..] == Chunk(data, k);
  }

  lemma HeaderReadsBack()
    ensures ParseLine(Line('0', [0, 0] + ANKA)) == Ok(Header(ANKA))
  {
    LineReadsBack('0', [0, 0] + ANKA);
    hide Line, ParseLine;
    assert ([0, 0] + ANKA)[2..] == ANKA;
  }

  lemma CountReadsBack(n: nat)
    requires n < 0x1_0000
    ensures ParseLine(Line('5', Count16(n))) == Ok(Count(n))
  {
    LineReadsBack('5', Count16(n));
    hide Line, ParseLine;
  }

  lemma EntryReadsBack(entry: U32)
    ensures ParseLine(Line('8', Address24(entry))) == Ok(End(entry % LIMIT24))
  {
    LineReadsBack('8', Address24(entry));
    AddressReadsBack(entry, []);
    hide Line, ParseLine, Address24;
    assert Address24(entry) + [] == Address24(entry);
  }

  lemma EndsReadBack(data: seq<Byte>, base: U32, entry: U32)
    requires Printable(data, base)
    ensures ParseLine(Line('0', [0, 0] + ANKA)) == Ok(Header(ANKA))
    ensures ParseLine(Line('5', Count16(Chunks(data)))) == Ok(Count(Chunks(data)))
    ensures ParseLine(Line('8', Address24(entry))) == Ok(End(entry % LIMIT24))
  {
    hide Line, ParseLine, Address24, Count16;
    HeaderReadsBack();
    CountReadsBack(Chunks(data));
    EntryReadsBack(entry);
  }

  lemma ParsePush(lines: seq<string>, line: string, records: seq<Record>, r: Record)
    requires ParseLines(lines) == Ok(SrecFile(records, None)) && Clean(line) && Trim(line) == line && ParseLine(line) == Ok(r)
    ensures ParseLines(lines + [line]) == Ok(SrecFile(records + [r], if r.End? then Some(r.entry) else None))
  {
    hide ParseLine, Trim;
    assert (lines + [line])[..|lines|] == lines;
  }

  lemma {:induction false} FirstReadBack(data: seq<Byte>, base: U32, n: nat)
    requires Printable(data, base) && n <= Chunks(data)
    ensures ParseLines(FirstLines(data, base, n)) == Ok(SrecFile([Header(ANKA)] + DataRecords(data, base, n), None))
    ensures forall i :: 0 <= i < |FirstLines(data, base, n)| ==> Clean(FirstLines(data, base, n)[i])
    decreases n
  {
    hide Line, ParseLine, Trim, Clean, DataLine, ParseLines;
    if n == 0 {
      HeaderReadsBack();
      LineIsClean('0', [0, 0] + ANKA);
      ParseNone();
      ParsePush([], Line('0', [0, 0] + ANKA), [], Header(ANKA));
      assert [] + [Line('0', [0, 0] + ANKA)] == FirstLines(data, base, 0);
      assert [] + [Header(ANKA)] == [Header(ANKA)] + DataRecords(data, base, 0);
    } else {
      FirstReadBack(data, base, n - 1);
      RecordsReadBack(data, base, n - 1);
      var before := [Header(ANKA)] + DataRecords(data, base, n - 1);
      ParsePush(FirstLines(data, base, n - 1), DataLine(data, base, n - 1), before, DataRecord(data, base, n - 1));
      assert before + [DataRecord(data, base, n - 1)] == [Header(ANKA)] + DataRecords(data, base, n);
    }
  }

  lemma ParseNone()
    ensures ParseLines([]) == Ok(SrecFile([], None))
  {
  }

  /** Parsing what was written gives the header, the data records in order, the count and the entry.
      Addresses and the entry come back modulo 2^24, the width the format prints. */
  lemma RoundTrip(data: seq<Byte>, base: U32, entry: U32)
    requires Printable(data, base)
    ensures ParseLines(Lines(Unlines(WrittenLines(data, base, entry)))) ==
      Ok(SrecFile([Header(ANKA)] + DataRecords(data, base, Chunks(data)) + [Count(Chunks(data)), End(entry % LIMIT24)],
                  Some(entry % LIMIT24)))
  {
    hide Line, ParseLine, Trim, Clean, Lines, Unlines, ParseLines, FirstLines, IsSpace;
    var n := Chunks(data);
    var first := FirstLines(data, base, n);
    var s5, s8 := Line('5', Count16(n)), Line('8', Address24(entry));
    FirstReadBack(data, base, n);
    EndsReadBack(data, base, entry);
    LineIsClean('5', Count16(n)) by {
      NotSpace();
    }
    LineIsClean('8', Address24(entry)) by {
      NotSpace();
    }
    var records := [Header(ANKA)] + DataRecords(data, base, n);
    ParsePush(first, s5, records, Count(n));
    ParsePush(first + [s5], s8, records + [Count(n)], End(entry % LIMIT24));
    LinesRoundTrip(WrittenLines(data, base, entry));
    assert records + [Count(n)] + [End(entry % LIMIT24)] == records + [Count(n), End(entry % LIMIT24)];
  }

  lemma NotSpace()
    ensures !IsSpace('0') && !IsSpace('2') && !IsSpace('5') && !IsSpace('8')
  {
  }

  /** The data records' bytes, joined. */
  function Joined(records: seq<Record>): seq<Byte>
    requires forall k :: 0 <= k < |records| ==> records[k].Data?
    decreases records
  {
    if records == [] then [] else Joined(records[..|records| - 1]) + records[|records| - 1].data
  }

  lemma {:induction false} JoinedPrefix(data: seq<Byte>, base: U32, n: nat)
    requires n <= Chunks(data)
    ensures Joined(DataRecords(data, base, n)) == data[..if CHUNK * n <= |data| then CHUNK * n else |data|]
  {
    if n > 0 {
      JoinedPrefix(data, base, n - 1);
      assert DataRecords(data, base, n)[..n - 1] == DataRecords(data, base, n - 1);
    }
  }

  /** The records join to the data; they are contiguous from the base, and the entry survives, exactly
      when the addresses fit the format's 24 bits. */
  lemma RoundTripExact(data: seq<Byte>, base: U32, entry: U32)
    requires Printable(data, base)
    ensures Joined(DataRecords(data, base, Chunks(data))) == data
    ensures entry % LIMIT24 == entry <==> entry < LIMIT24
    ensures (forall k :: 0 <= k < Chunks(data) ==> DataRecord(data, base, k).address == base + CHUNK * k)
      <==> (data == [] || base + CHUNK * (Chunks(data) - 1) < LIMIT24)
  {
    var n := Chunks(data);
    JoinedPrefix(data, base, n);
    assert data[..|data|] == data;
    forall k | 0 <= k < n
      ensures DataRecord(data, base, k).address == base + CHUNK * k <==> base + CHUNK * k < LIMIT24
    {
      Modulo24(base + CHUNK * k);
    }
    Modulo24(entry);
    if n > 0 {
      assert DataRecord(data, base, n - 1).address == base + CHUNK * (n - 1) <==> base + CHUNK * (n - 1) < LIMIT24;
    }
  }

  lemma Modulo24(a: nat)
    ensures a % LIMIT24 == a <==> a < LIMIT24
  {
  }
}
