/** Anka Object Modules, version 1: the byte layout and the parser that inverts it. */

module AomFormat {
  import opened Words

  type Name = seq<Byte>

  const MAGIC: seq<Byte> := [0x41, 0x4E, 0x4B, 0x41, 0x4F, 0x4D, 0x31, 0x00]
  const HEADER_SIZE := 112
  const SYMBOL_SIZE := 160
  const RELOCATION_SIZE := 48
  const UNDEFINED := 0
  const CODE := 1
  const EXPORT := 1
  const IMPORT := 2
  const FUNCTION := 1
  const CALL_PC20 := 1

  datatype Header = Header(
    total: Word, codeOffset: Word, codeSize: Word, codeAlign: Word, rodataOffset: Word, rodataSize: Word,
    rodataAlign: Word, symbolOffset: Word, symbolCount: Word, relocationOffset: Word, relocationCount: Word)

  datatype Symbol = Symbol(
    name: Name, binding: Word, kind: Word, section: Word, value: Word, size: Word, returnType: Word,
    parameterTypes: seq<Word>)

  datatype Relocation = Relocation(section: Word, offset: Word, width: Word, kind: Word, symbol: Word, addend: int)

  datatype Module = Module(
    header: Header, code: seq<Byte>, rodata: seq<Byte>, symbols: seq<Symbol>, relocations: seq<Relocation>)

  datatype Error =
    | Truncated | BadMagic | UnsupportedVersion(version: Word) | BadHeaderSize(size: Word) | BadTotalSize
    | BadAlignment | BadSectionBounds | BadTableGeometry | BadSymbol | DuplicateSymbol | BadRelocation

  // ---- Little-endian words ----

  function Value(bytes: seq<Byte>): nat
    decreases bytes
  {
    if bytes == [] then 0
    else
      var rest := Value(bytes[1..]);
      bytes[0] + 256 * rest
  }

  lemma {:induction false} ValueBound(bytes: seq<Byte>)
    ensures Value(bytes) < Pow256(|bytes|)
    decreases bytes
  {
    if bytes != [] {
      ValueBound(bytes[1..]);
    }
  }

  lemma WordBound(bytes: seq<Byte>)
    requires |bytes| == 8
    ensures Value(bytes) < TWO64
  {
    hide Value, Pow256;
    EightBytes();
    ValueBound(bytes);
  }

  function Bytes(v: nat, n: nat): (b: seq<Byte>)
    ensures |b| == n
  {
    if n == 0 then [] else [v % 256] + Bytes(v / 256, n - 1)
  }

  lemma {:induction false} ValueBytes(v: nat, n: nat)
    requires v < Pow256(n)
    ensures Value(Bytes(v, n)) == v
  {
    if n > 0 {
      ValueBytes(v / 256, n - 1);
      assert Bytes(v, n)[1..] == Bytes(v / 256, n - 1);
    }
  }

  lemma {:induction false} BytesValue(b: seq<Byte>)
    ensures Bytes(Value(b), |b|) == b
    decreases b
  {
    if b != [] {
      BytesValue(b[1..]);
      var rest := Value(b[1..]);
      DivMod(b[0], rest);
      assert [b[0]] + b[1..] == b;
    }
  }

  lemma DivMod(b: Byte, rest: nat)
    ensures (b + 256 * rest) % 256 == b && (b + 256 * rest) / 256 == rest
  {
  }

  lemma EightBytes()
    ensures Pow256(8) == TWO64
  {
    assert Pow256(1) == 256 && Pow256(2) == 0x1_0000 && Pow256(3) == 0x100_0000 && Pow256(4) == 0x1_0000_0000;
    assert Pow256(6) == 0x1_0000_0000_0000;
  }

  function WordAt(bytes: seq<Byte>, offset: nat): Word
    requires offset + 8 <= |bytes|
  {
    WordBound(bytes[offset..offset + 8]);
    Value(bytes[offset..offset + 8])
  }

  function WordBytes(w: Word): seq<Byte> {
    Bytes(w, 8)
  }

  lemma WordIff(bytes: seq<Byte>, offset: nat, w: Word)
    requires offset + 8 <= |bytes|
    ensures WordAt(bytes, offset) == w <==> bytes[offset..offset + 8] == WordBytes(w)
  {
    EightBytes();
    ValueBytes(w, 8);
    BytesValue(bytes[offset..offset + 8]);
  }

  /** Consecutive words. */
  function WordsBytes(ws: seq<Word>): (b: seq<Byte>)
    ensures |b| == 8 * |ws|
    decreases ws
  {
    if ws == [] then [] else WordsBytes(ws[..|ws| - 1]) + WordBytes(ws[|ws| - 1])
  }

  /** A run of bytes is some words' bytes exactly when each word reads back. */
  lemma {:induction false} WordsIff(bytes: seq<Byte>, offset: nat, ws: seq<Word>)
    requires offset + 8 * |ws| <= |bytes|
    ensures bytes[offset..offset + 8 * |ws|] == WordsBytes(ws) <==>
      forall k :: 0 <= k < |ws| ==> WordAt(bytes, offset + 8 * k) == ws[k]
    decreases ws
  {
    hide WordAt, WordBytes;
    if ws != [] {
      var n := |ws| - 1;
      WordsIff(bytes, offset, ws[..n]);
      WordIff(bytes, offset + 8 * n, ws[n]);
      EightLong(ws[n]);
      LastWord(bytes, offset, ws);
      LastBytes(bytes, offset, 8 * n, WordsBytes(ws[..n]), WordBytes(ws[n]));
    }
  }

  lemma LastWord(bytes: seq<Byte>, offset: nat, ws: seq<Word>)
    requires ws != [] && offset + 8 * |ws| <= |bytes|
    ensures (forall k :: 0 <= k < |ws| ==> WordAt(bytes, offset + 8 * k) == ws[k]) <==>
      (&& (forall k :: 0 <= k < |ws[..|ws| - 1]| ==> WordAt(bytes, offset + 8 * k) == ws[..|ws| - 1][k])
       && WordAt(bytes, offset + 8 * (|ws| - 1)) == ws[|ws| - 1])
  {
    hide WordAt;
  }

  lemma LastBytes(bytes: seq<Byte>, offset: nat, n: nat, a: seq<Byte>, b: seq<Byte>)
    requires |a| == n && |b| == 8 && offset + n + 8 <= |bytes|
    ensures bytes[offset..offset + n + 8] == a + b <==>
      bytes[offset..offset + n] == a && bytes[offset + n..offset + n + 8] == b
  {
    SplitIff(bytes[offset..offset + n + 8], a, b);
    assert bytes[offset..offset + n + 8][..n] == bytes[offset..offset + n];
    assert bytes[offset..offset + n + 8][n..] == bytes[offset + n..offset + n + 8];
  }

  lemma SplitIff(s: seq<Byte>, a: seq<Byte>, b: seq<Byte>)
    requires |s| == |a| + |b|
    ensures s == a + b <==> s[..|a|] == a && s[|a|..] == b
  {
    assert s == s[..|a|] + s[|a|..];
    if s == a + b {
      assert s[..|a|] == a && s[|a|..] == b;
    }
  }

  // ---- Symbols ----

  predicate IsLetter(b: Byte) {
    0x41 <= b <= 0x5A || 0x61 <= b <= 0x7A
  }

  predicate NameStart(b: Byte) {
    b == 0x5F || IsLetter(b)
  }

  predicate NamePart(b: Byte) {
    NameStart(b) || 0x30 <= b <= 0x39
  }

  predicate NameOk(name: Name) {
    0 < |name| <= 63 && NameStart(name[0]) && forall i :: 1 <= i < |name| ==> NamePart(name[i])
  }

  predicate PublicType(t: Word) {
    t % 1000 == 1 || t % 1000 == 2 || t % 1000 == 3
  }

  predicate BindingOk(binding: Word, section: Word, value: Word, size: Word, codeSize: nat) {
    || (binding == EXPORT && section == CODE && value < codeSize && value % 8 == 0)
    || (binding == IMPORT && section == UNDEFINED && value == 0 && size == 0)
  }

  /** A function symbol: an export inside code, or an import with no place of its own. */
  predicate SymbolOk(s: Symbol, codeSize: nat) {
    && NameOk(s.name) && s.kind == FUNCTION && PublicType(s.returnType)
    && BindingOk(s.binding, s.section, s.value, s.size, codeSize)
    && |s.parameterTypes| <= 4
    && forall p :: 0 <= p < |s.parameterTypes| ==> s.parameterTypes[p] != 3 && PublicType(s.parameterTypes[p])
  }

  function Repeat<T>(x: T, n: nat): (s: seq<T>)
    ensures |s| == n && forall i :: 0 <= i < n ==> s[i] == x
  {
    seq(n, _ => x)
  }

  function FieldWords(s: Symbol): (ws: seq<Word>)
    requires |s.parameterTypes| <= 4
    ensures |ws| == 11
  {
    [s.binding, s.kind, s.section, s.value, s.size, s.returnType, |s.parameterTypes|]
    + s.parameterTypes + Repeat<Word>(0, 4 - |s.parameterTypes|)
  }

  /** The name's length, its bytes padded with zeros to 64, then eleven words. */
  function SymbolBytes(s: Symbol): (b: seq<Byte>)
    requires |s.name| <= 63 && |s.parameterTypes| <= 4
    ensures |b| == SYMBOL_SIZE
  {
    WordBytes(|s.name|) + (s.name + Repeat<Byte>(0, 64 - |s.name|)) + WordsBytes(FieldWords(s))
  }

  function Parameters(b: seq<Byte>, argc: nat): (ps: seq<Word>)
    requires |b| == SYMBOL_SIZE && argc <= 4
    ensures |ps| == argc && forall p :: 0 <= p < argc ==> ps[p] == WordAt(b, 128 + 8 * p)
  {
    seq(argc, p requires 0 <= p < argc => WordAt(b, 128 + 8 * p))
  }

  /** What the parser reads from one symbol record, after the symbols read before it. */
  function ReadSymbol(b: seq<Byte>, codeSize: nat, earlier: seq<Symbol>): Result<Symbol, Error>
    requires |b| == SYMBOL_SIZE
  {
    var length := WordAt(b, 0);
    if length == 0 || length > 63 then Err(BadSymbol)
    else
      var name := b[8..8 + length];
      if exists i :: 8 + length <= i < 72 && b[i] != 0 then Err(BadSymbol)
      else if !NameOk(name) then Err(BadSymbol)
      else if exists i :: 0 <= i < |earlier| && earlier[i].name == name then Err(DuplicateSymbol)
      else
        var binding, kind, section, value, size := WordAt(b, 72), WordAt(b, 80), WordAt(b, 88), WordAt(b, 96), WordAt(b, 104);
        var returnType, argc := WordAt(b, 112), WordAt(b, 120);
        if kind != FUNCTION || argc > 4 || !PublicType(returnType) then Err(BadSymbol)
        else if !BindingOk(binding, section, value, size, codeSize) then Err(BadSymbol)
        else
          var ps := Parameters(b, argc);
          if exists p :: 0 <= p < argc && (ps[p] == 3 || !PublicType(ps[p])) then Err(BadSymbol)
          else if exists p :: argc <= p < 4 && WordAt(b, 128 + 8 * p) != 0 then Err(BadSymbol)
          else Ok(Symbol(name, binding, kind, section, value, size, returnType, ps))
  }

  /** The record's name part. */
  predicate NameLaid(b: seq<Byte>, name: Name)
    requires |b| == SYMBOL_SIZE
  {
    && |name| <= 63 && WordAt(b, 0) == |name| && b[8..8 + |name|] == name
    && forall i :: 8 + |name| <= i < 72 ==> b[i] == 0
  }

  lemma NameIff(b: seq<Byte>, name: Name)
    requires |b| == SYMBOL_SIZE && |name| <= 63
    ensures b[..72] == WordBytes(|name|) + (name + Repeat<Byte>(0, 64 - |name|)) <==> NameLaid(b, name)
  {
    hide WordAt, WordBytes;
    WordIff(b, 0, |name|);
    var pad := Repeat<Byte>(0, 64 - |name|);
    SplitIff(b[..72], WordBytes(|name|), name + pad) by {
      EightLong(|name|);
    }
    EightLong(|name|);
    assert b[..72][..8] == b[0..8] && b[..72][8..] == b[8..72];
    SplitIff(b[8..72], name, pad);
    assert b[8..72][..|name|] == b[8..8 + |name|] && b[8..72][|name|..] == b[8 + |name|..72];
    PadIff(b, 8 + |name|);
  }

  lemma EightLong(w: Word)
    ensures |WordBytes(w)| == 8
  {
  }

  lemma PadIff(b: seq<Byte>, from: nat)
    requires |b| == SYMBOL_SIZE && from <= 72
    ensures b[from..72] == Repeat<Byte>(0, 72 - from) <==> forall i :: from <= i < 72 ==> b[i] == 0
  {
    if forall i :: from <= i < 72 ==> b[i] == 0 {
      assert b[from..72] == Repeat<Byte>(0, 72 - from);
    } else {
      var i :| from <= i < 72 && b[i] != 0;
      assert b[from..72][i - from] != Repeat<Byte>(0, 72 - from)[i - from];
    }
  }

  predicate FieldsLaid(b: seq<Byte>, s: Symbol)
    requires |b| == SYMBOL_SIZE
  {
    && |s.parameterTypes| <= 4
    && WordAt(b, 72) == s.binding && WordAt(b, 80) == s.kind && WordAt(b, 88) == s.section && WordAt(b, 96) == s.value
    && WordAt(b, 104) == s.size && WordAt(b, 112) == s.returnType && WordAt(b, 120) == |s.parameterTypes|
    && Parameters(b, |s.parameterTypes|) == s.parameterTypes
    && forall p :: |s.parameterTypes| <= p < 4 ==> WordAt(b, 128 + 8 * p) == 0
  }

  lemma FieldsIff(b: seq<Byte>, s: Symbol)
    requires |b| == SYMBOL_SIZE && |s.parameterTypes| <= 4
    ensures b[72..] == WordsBytes(FieldWords(s)) <==> FieldsLaid(b, s)
  {
    hide WordAt, WordsBytes, FieldWords, Parameters;
    var ws := FieldWords(s);
    ElevenIff(b, ws);
    FieldWordsAre(s);
    ParametersIff(b, s.parameterTypes);
  }

  lemma FieldWordsAre(s: Symbol)
    requires |s.parameterTypes| <= 4
    ensures var ws, types := FieldWords(s), s.parameterTypes;
      && ws[0] == s.binding && ws[1] == s.kind && ws[2] == s.section && ws[3] == s.value && ws[4] == s.size
      && ws[5] == s.returnType && ws[6] == |types| && ws[7] == TypeWord(types, 0) && ws[8] == TypeWord(types, 1)
      && ws[9] == TypeWord(types, 2) && ws[10] == TypeWord(types, 3)
  {
  }

  lemma ElevenIff(b: seq<Byte>, ws: seq<Word>)
    requires |b| == SYMBOL_SIZE && |ws| == 11
    ensures b[72..] == WordsBytes(ws) <==>
      (&& WordAt(b, 72) == ws[0] && WordAt(b, 80) == ws[1] && WordAt(b, 88) == ws[2] && WordAt(b, 96) == ws[3]
       && WordAt(b, 104) == ws[4] && WordAt(b, 112) == ws[5] && WordAt(b, 120) == ws[6] && WordAt(b, 128) == ws[7]
       && WordAt(b, 136) == ws[8] && WordAt(b, 144) == ws[9] && WordAt(b, 152) == ws[10])
  {
    hide WordAt, WordsBytes;
    WordsIff(b, 72, ws);
    assert b[72..72 + 8 * |ws|] == b[72..];
    Eleven(b, ws);
  }

  /** A type word, or zero past the arguments. */
  function TypeWord(types: seq<Word>, p: nat): Word {
    if p < |types| then types[p] else 0
  }

  lemma ParametersIff(b: seq<Byte>, types: seq<Word>)
    requires |b| == SYMBOL_SIZE && |types| <= 4
    ensures (&& Parameters(b, |types|) == types
             && forall p :: |types| <= p < 4 ==> WordAt(b, 128 + 8 * p) == 0)
      <==> (&& WordAt(b, 128) == TypeWord(types, 0) && WordAt(b, 136) == TypeWord(types, 1)
            && WordAt(b, 144) == TypeWord(types, 2) && WordAt(b, 152) == TypeWord(types, 3))
  {
    hide WordAt;
    var ps := Parameters(b, |types|);
    assert WordAt(b, 128 + 8 * 0) == WordAt(b, 128) && WordAt(b, 128 + 8 * 1) == WordAt(b, 136);
    assert WordAt(b, 128 + 8 * 2) == WordAt(b, 144) && WordAt(b, 128 + 8 * 3) == WordAt(b, 152);
    if WordAt(b, 128) == TypeWord(types, 0) && WordAt(b, 136) == TypeWord(types, 1)
       && WordAt(b, 144) == TypeWord(types, 2) && WordAt(b, 152) == TypeWord(types, 3) {
      forall p | 0 <= p < 4
        ensures WordAt(b, 128 + 8 * p) == TypeWord(types, p)
      {
        assert p == 0 || p == 1 || p == 2 || p == 3;
      }
      assert ps == types;
    }
  }

  lemma Eleven(b: seq<Byte>, ws: seq<Word>)
    requires |b| == SYMBOL_SIZE && |ws| == 11
    ensures (forall k :: 0 <= k < 11 ==> WordAt(b, 72 + 8 * k) == ws[k]) <==>
      (&& WordAt(b, 72) == ws[0] && WordAt(b, 80) == ws[1] && WordAt(b, 88) == ws[2] && WordAt(b, 96) == ws[3]
       && WordAt(b, 104) == ws[4] && WordAt(b, 112) == ws[5] && WordAt(b, 120) == ws[6] && WordAt(b, 128) == ws[7]
       && WordAt(b, 136) == ws[8] && WordAt(b, 144) == ws[9] && WordAt(b, 152) == ws[10])
  {
    hide WordAt;
    if forall k :: 0 <= k < 11 ==> WordAt(b, 72 + 8 * k) == ws[k] {
      assert WordAt(b, 72 + 8 * 0) == ws[0] && WordAt(b, 72 + 8 * 1) == ws[1] && WordAt(b, 72 + 8 * 2) == ws[2];
      assert WordAt(b, 72 + 8 * 3) == ws[3] && WordAt(b, 72 + 8 * 4) == ws[4] && WordAt(b, 72 + 8 * 5) == ws[5];
      assert WordAt(b, 72 + 8 * 6) == ws[6] && WordAt(b, 72 + 8 * 7) == ws[7] && WordAt(b, 72 + 8 * 8) == ws[8];
      assert WordAt(b, 72 + 8 * 9) == ws[9] && WordAt(b, 72 + 8 * 10) == ws[10];
    }
  }

  predicate NewName(name: Name, earlier: seq<Symbol>) {
    forall i :: 0 <= i < |earlier| ==> earlier[i].name != name
  }

  /** A symbol record is read as a symbol exactly when the symbol is well formed, its name is new, and the record is its layout. */
  lemma ReadSymbolIff(b: seq<Byte>, codeSize: nat, earlier: seq<Symbol>, s: Symbol)
    requires |b| == SYMBOL_SIZE
    ensures ReadSymbol(b, codeSize, earlier) == Ok(s) <==>
      SymbolOk(s, codeSize) && NewName(s.name, earlier) && b == SymbolBytes(s)
  {
    if |s.name| <= 63 && |s.parameterTypes| <= 4 {
      NameIff(b, s.name);
      FieldsIff(b, s);
      SplitIff(b, WordBytes(|s.name|) + (s.name + Repeat<Byte>(0, 64 - |s.name|)), WordsBytes(FieldWords(s)));
    }
    hide WordAt, WordBytes, WordsBytes, FieldWords;
    ReadSymbolLaid(b, codeSize, earlier, s);
  }

  lemma ReadSymbolLaid(b: seq<Byte>, codeSize: nat, earlier: seq<Symbol>, s: Symbol)
    requires |b| == SYMBOL_SIZE
    ensures ReadSymbol(b, codeSize, earlier) == Ok(s) <==>
      SymbolOk(s, codeSize) && NewName(s.name, earlier) && NameLaid(b, s.name) && FieldsLaid(b, s)
  {
    hide WordAt;
  }

  // ---- Relocations ----

  /** A call site inside code that refers to an import. */
  predicate RelocationOk(r: Relocation, codeSize: nat, symbols: seq<Symbol>) {
    && r.section == CODE && r.width == 8 && r.kind == CALL_PC20 && r.offset % 8 == 0 && r.offset + 8 <= codeSize
    && r.symbol < |symbols| && symbols[r.symbol].binding == IMPORT
    && -TWO63 <= r.addend < TWO63
  }

  function RelocationWords(r: Relocation): seq<Word> {
    [r.section, r.offset, r.width, r.kind, r.symbol, Wrap(r.addend)]
  }

  function RelocationBytes(r: Relocation): (b: seq<Byte>)
    ensures |b| == RELOCATION_SIZE
  {
    WordsBytes(RelocationWords(r))
  }

  function ReadRelocation(b: seq<Byte>, codeSize: nat, symbols: seq<Symbol>): Result<Relocation, Error>
    requires |b| == RELOCATION_SIZE
  {
    var r := Relocation(WordAt(b, 0), WordAt(b, 8), WordAt(b, 16), WordAt(b, 24), WordAt(b, 32), Signed(WordAt(b, 40)));
    if r.section != CODE || r.width != 8 || r.kind != CALL_PC20 || r.offset % 8 != 0
       || r.offset + r.width >= TWO64 || r.offset + r.width > codeSize
       || r.symbol >= |symbols| || symbols[r.symbol].binding != IMPORT
    then Err(BadRelocation)
    else Ok(r)
  }

  lemma SixWords(b: seq<Byte>, ws: seq<Word>)
    requires |b| == RELOCATION_SIZE && |ws| == 6
    ensures b == WordsBytes(ws) <==>
      (&& WordAt(b, 0) == ws[0] && WordAt(b, 8) == ws[1] && WordAt(b, 16) == ws[2] && WordAt(b, 24) == ws[3]
       && WordAt(b, 32) == ws[4] && WordAt(b, 40) == ws[5])
  {
    hide WordAt, WordsBytes;
    WordsIff(b, 0, ws);
    assert b[0..0 + 8 * |ws|] == b;
    if forall k :: 0 <= k < |ws| ==> WordAt(b, 0 + 8 * k) == ws[k] {
      assert WordAt(b, 0 + 8 * 0) == ws[0] && WordAt(b, 0 + 8 * 1) == ws[1] && WordAt(b, 0 + 8 * 2) == ws[2];
      assert WordAt(b, 0 + 8 * 3) == ws[3] && WordAt(b, 0 + 8 * 4) == ws[4] && WordAt(b, 0 + 8 * 5) == ws[5];
    }
  }

  lemma SignedIff(w: Word, n: int)
    ensures Signed(w) == n <==> -TWO63 <= n < TWO63 && w == Wrap(n)
  {
  }

  /** A relocation record is read exactly when it is the layout of a valid relocation. */
  lemma ReadRelocationIff(b: seq<Byte>, codeSize: nat, symbols: seq<Symbol>, r: Relocation)
    requires |b| == RELOCATION_SIZE && codeSize < TWO64
    ensures ReadRelocation(b, codeSize, symbols) == Ok(r) <==> RelocationOk(r, codeSize, symbols) && b == RelocationBytes(r)
  {
    hide WordAt, WordsBytes, Signed, Wrap;
    SixWords(b, RelocationWords(r));
    SignedIff(WordAt(b, 40), r.addend);
  }

  // ---- The header ----

  predicate PowerOfTwo(n: nat)
  {
    n == 1 || (n > 1 && n % 2 == 0 && PowerOfTwo(n / 2))
  }

  predicate Aligned(value: Word, alignment: Word) {
    alignment != 0 && PowerOfTwo(alignment) && value % alignment == 0
  }

  function HeaderWords(h: Header): seq<Word> {
    [1, HEADER_SIZE, h.total, h.codeOffset, h.codeSize, h.codeAlign, h.rodataOffset, h.rodataSize, h.rodataAlign,
     h.symbolOffset, h.symbolCount, h.relocationOffset, h.relocationCount]
  }

  function ReadHeader(b: seq<Byte>): Header
    requires |b| >= HEADER_SIZE
  {
    Header(WordAt(b, 24), WordAt(b, 32), WordAt(b, 40), WordAt(b, 48), WordAt(b, 56), WordAt(b, 64),
           WordAt(b, 72), WordAt(b, 80), WordAt(b, 88), WordAt(b, 96), WordAt(b, 104))
  }

  /** The parser's checks, with the 64-bit additions and products it checks for overflow. */
  function HeaderError(h: Header, total: Word): Option<Error> {
    if h.total != total then Some(BadTotalSize)
    else if h.codeOffset != HEADER_SIZE || h.codeSize == 0 || h.codeSize % 8 != 0 then Some(BadSectionBounds)
    else if !Aligned(h.codeOffset, h.codeAlign) || h.codeAlign < 8 || !Aligned(h.rodataOffset, h.rodataAlign)
            || h.rodataAlign < 8 || !Aligned(h.symbolOffset, 8) || !Aligned(h.relocationOffset, 8) then Some(BadAlignment)
    else if h.codeOffset + h.codeSize >= TWO64 || h.codeOffset + h.codeSize > h.total then Some(BadSectionBounds)
    else if h.rodataOffset + h.rodataSize >= TWO64 || h.rodataOffset + h.rodataSize > h.total then Some(BadSectionBounds)
    else if h.rodataOffset < h.codeOffset + h.codeSize || h.symbolOffset < h.rodataOffset + h.rodataSize then Some(BadSectionBounds)
    else if h.symbolCount * SYMBOL_SIZE >= TWO64 || h.symbolOffset + h.symbolCount * SYMBOL_SIZE >= TWO64 then Some(BadTableGeometry)
    else if h.symbolOffset + h.symbolCount * SYMBOL_SIZE != h.relocationOffset then Some(BadTableGeometry)
    else if h.relocationCount * RELOCATION_SIZE >= TWO64 || h.relocationOffset + h.relocationCount * RELOCATION_SIZE >= TWO64
    then Some(BadTableGeometry)
    else if h.relocationOffset + h.relocationCount * RELOCATION_SIZE != h.total then Some(BadTableGeometry)
    else None
  }

  /** Sections and tables in order, disjoint, aligned, and ending exactly at the end of the file. */
  predicate HeaderOk(h: Header, total: Word) {
    && h.codeOffset == HEADER_SIZE && h.codeSize > 0 && h.codeSize % 8 == 0
    && h.codeOffset + h.codeSize <= h.rodataOffset && h.rodataOffset + h.rodataSize <= h.symbolOffset
    && h.symbolOffset + SYMBOL_SIZE * h.symbolCount == h.relocationOffset
    && h.relocationOffset + RELOCATION_SIZE * h.relocationCount == h.total == total
    && h.codeAlign >= 8 && Aligned(h.codeOffset, h.codeAlign)
    && h.rodataAlign >= 8 && Aligned(h.rodataOffset, h.rodataAlign)
    && h.symbolOffset % 8 == 0
  }

  lemma HeaderErrorIff(h: Header, total: Word)
    ensures HeaderError(h, total) == None <==> HeaderOk(h, total)
  {
    hide Aligned;
    AlignedToEight(h.symbolOffset);
    AlignedToEight(h.relocationOffset);
    if h.symbolOffset % 8 == 0 && h.symbolOffset + SYMBOL_SIZE * h.symbolCount == h.relocationOffset {
      TableAligned(h.symbolOffset, h.symbolCount);
    }
  }

  lemma AlignedToEight(v: Word)
    ensures Aligned(v, 8) <==> v % 8 == 0
  {
    assert PowerOfTwo(1) && PowerOfTwo(2) && PowerOfTwo(4) && PowerOfTwo(8);
  }

  lemma TableAligned(v: Word, n: Word)
    requires v % 8 == 0
    ensures (v + SYMBOL_SIZE * n) % 8 == 0
  {
    assert SYMBOL_SIZE * n == 8 * (20 * n);
  }

  // ---- The tables ----

  function SymbolAt(b: seq<Byte>, h: Header, i: nat): (r: seq<Byte>)
    requires h.symbolOffset + SYMBOL_SIZE * (i + 1) <= |b|
    ensures |r| == SYMBOL_SIZE
  {
    b[h.symbolOffset + SYMBOL_SIZE * i..h.symbolOffset + SYMBOL_SIZE * i + SYMBOL_SIZE]
  }

  function RelocationAt(b: seq<Byte>, h: Header, i: nat): (r: seq<Byte>)
    requires h.relocationOffset + RELOCATION_SIZE * (i + 1) <= |b|
    ensures |r| == RELOCATION_SIZE
  {
    b[h.relocationOffset + RELOCATION_SIZE * i..h.relocationOffset + RELOCATION_SIZE * i + RELOCATION_SIZE]
  }

  function ReadSymbols(b: seq<Byte>, h: Header, n: nat): Result<seq<Symbol>, Error>
    requires h.symbolOffset + SYMBOL_SIZE * n <= |b|
  {
    if n == 0 then Ok([])
    else
      var earlier := ReadSymbols(b, h, n - 1);
      if earlier.Err? then earlier
      else
        var s := ReadSymbol(SymbolAt(b, h, n - 1), h.codeSize, earlier.value);
        if s.Err? then Err(s.error) else Ok(earlier.value + [s.value])
  }

  function ReadRelocations(b: seq<Byte>, h: Header, symbols: seq<Symbol>, n: nat): Result<seq<Relocation>, Error>
    requires h.relocationOffset + RELOCATION_SIZE * n <= |b|
  {
    if n == 0 then Ok([])
    else
      var earlier := ReadRelocations(b, h, symbols, n - 1);
      if earlier.Err? then earlier
      else
        var r := ReadRelocation(RelocationAt(b, h, n - 1), h.codeSize, symbols);
        if r.Err? then Err(r.error) else Ok(earlier.value + [r.value])
  }

  predicate SymbolLaid(b: seq<Byte>, h: Header, ss: seq<Symbol>, i: nat)
    requires i < |ss| && h.symbolOffset + SYMBOL_SIZE * (i + 1) <= |b|
  {
    SymbolOk(ss[i], h.codeSize) && NewName(ss[i].name, ss[..i]) && SymbolAt(b, h, i) == SymbolBytes(ss[i])
  }

  ghost predicate SymbolsLaid(b: seq<Byte>, h: Header, ss: seq<Symbol>) {
    && h.symbolOffset + SYMBOL_SIZE * |ss| <= |b|
    && forall i :: 0 <= i < |ss| ==> SymbolLaid(b, h, ss, i)
  }

  lemma {:induction false} ReadSymbolsIff(b: seq<Byte>, h: Header, n: nat, ss: seq<Symbol>)
    requires h.symbolOffset + SYMBOL_SIZE * n <= |b|
    ensures ReadSymbols(b, h, n) == Ok(ss) <==> |ss| == n && SymbolsLaid(b, h, ss)
    decreases n
  {
    hide ReadSymbol, SymbolBytes, SymbolAt, SymbolOk;
    if n > 0 {
      if |ss| == n {
        var front, last := ss[..n - 1], ss[n - 1];
        ReadSymbolsIff(b, h, n - 1, front);
        ReadSymbolIff(SymbolAt(b, h, n - 1), h.codeSize, front, last);
        assert front + [last] == ss;
        SymbolsFront(b, h, ss);
      } else {
        ReadSymbolsLength(b, h, n);
      }
    }
  }

  lemma SymbolsFront(b: seq<Byte>, h: Header, ss: seq<Symbol>)
    requires ss != [] && h.symbolOffset + SYMBOL_SIZE * |ss| <= |b|
    ensures SymbolsLaid(b, h, ss) <==> SymbolsLaid(b, h, ss[..|ss| - 1]) && SymbolLaid(b, h, ss, |ss| - 1)
  {
    hide SymbolBytes, SymbolAt, SymbolOk, NewName;
    var front := ss[..|ss| - 1];
    forall i | 0 <= i < |front|
      ensures SymbolLaid(b, h, front, i) <==> SymbolLaid(b, h, ss, i)
    {
      assert front[..i] == ss[..i];
    }
  }

  lemma {:induction false} ReadSymbolsLength(b: seq<Byte>, h: Header, n: nat)
    requires h.symbolOffset + SYMBOL_SIZE * n <= |b|
    ensures ReadSymbols(b, h, n).Ok? ==> |ReadSymbols(b, h, n).value| == n
  {
    hide ReadSymbol;
    if n > 0 {
      ReadSymbolsLength(b, h, n - 1);
    }
  }

  ghost predicate RelocationsLaid(b: seq<Byte>, h: Header, symbols: seq<Symbol>, rs: seq<Relocation>) {
    && h.relocationOffset + RELOCATION_SIZE * |rs| <= |b|
    && forall i :: 0 <= i < |rs| ==>
         RelocationOk(rs[i], h.codeSize, symbols) && RelocationAt(b, h, i) == RelocationBytes(rs[i])
  }

  lemma {:induction false} ReadRelocationsIff(b: seq<Byte>, h: Header, symbols: seq<Symbol>, n: nat, rs: seq<Relocation>)
    requires h.relocationOffset + RELOCATION_SIZE * n <= |b|
    ensures ReadRelocations(b, h, symbols, n) == Ok(rs) <==> |rs| == n && RelocationsLaid(b, h, symbols, rs)
    decreases n
  {
    hide ReadRelocation, RelocationBytes, RelocationAt, RelocationOk;
    if n > 0 {
      if |rs| == n {
        var front, last := rs[..n - 1], rs[n - 1];
        ReadRelocationsIff(b, h, symbols, n - 1, front);
        ReadRelocationIff(RelocationAt(b, h, n - 1), h.codeSize, symbols, last);
        assert front + [last] == rs;
      } else {
        ReadRelocationsLength(b, h, symbols, n);
      }
    }
  }

  lemma {:induction false} ReadRelocationsLength(b: seq<Byte>, h: Header, symbols: seq<Symbol>, n: nat)
    requires h.relocationOffset + RELOCATION_SIZE * n <= |b|
    ensures ReadRelocations(b, h, symbols, n).Ok? ==> |ReadRelocations(b, h, symbols, n).value| == n
  {
    hide ReadRelocation;
    if n > 0 {
      ReadRelocationsLength(b, h, symbols, n - 1);
    }
  }

  // ---- Whole modules ----

  /** Version 2 modules carry type evidence and are outside this model. */
  predicate Typed(b: seq<Byte>) {
    |b| >= HEADER_SIZE && WordAt(b, 8) == 2
  }

  function ReadModule(b: seq<Byte>): Result<Module, Error>
    requires |b| < TWO64 && !Typed(b)
  {
    if |b| < HEADER_SIZE then Err(Truncated)
    else if b[0..8] != MAGIC then Err(BadMagic)
    else if WordAt(b, 8) != 1 then Err(UnsupportedVersion(WordAt(b, 8)))
    else if WordAt(b, 16) != HEADER_SIZE then Err(BadHeaderSize(WordAt(b, 16)))
    else
      var h := ReadHeader(b);
      HeaderErrorIff(h, |b|);
      if HeaderError(h, |b|).Some? then Err(HeaderError(h, |b|).value)
      else
        var symbols := ReadSymbols(b, h, h.symbolCount);
        if symbols.Err? then Err(symbols.error)
        else
          var relocations := ReadRelocations(b, h, symbols.value, h.relocationCount);
          if relocations.Err? then Err(relocations.error)
          else Ok(Module(h, b[h.codeOffset..h.codeOffset + h.codeSize], b[h.rodataOffset..h.rodataOffset + h.rodataSize],
                         symbols.value, relocations.value))
  }

  /** A module is well formed and laid out in the bytes, at the offsets of its own header. The gaps
      before the read-only data and before the symbols may hold anything. */
  ghost predicate Laid(b: seq<Byte>, m: Module) {
    var h := m.header;
    && |b| < TWO64 && HeaderOk(h, |b|)
    && b[..HEADER_SIZE] == MAGIC + WordsBytes(HeaderWords(h))
    && m.code == b[h.codeOffset..h.codeOffset + h.codeSize]
    && m.rodata == b[h.rodataOffset..h.rodataOffset + h.rodataSize]
    && |m.symbols| == h.symbolCount && SymbolsLaid(b, h, m.symbols)
    && |m.relocations| == h.relocationCount && RelocationsLaid(b, h, m.symbols, m.relocations)
  }

  lemma ThirteenWords(b: seq<Byte>, ws: seq<Word>)
    requires |b| >= HEADER_SIZE && |ws| == 13
    ensures b[8..HEADER_SIZE] == WordsBytes(ws) <==>
      (&& WordAt(b, 8) == ws[0] && WordAt(b, 16) == ws[1] && WordAt(b, 24) == ws[2] && WordAt(b, 32) == ws[3]
       && WordAt(b, 40) == ws[4] && WordAt(b, 48) == ws[5] && WordAt(b, 56) == ws[6] && WordAt(b, 64) == ws[7]
       && WordAt(b, 72) == ws[8] && WordAt(b, 80) == ws[9] && WordAt(b, 88) == ws[10] && WordAt(b, 96) == ws[11]
       && WordAt(b, 104) == ws[12])
  {
    hide WordAt, WordsBytes;
    WordsIff(b, 8, ws);
    if forall k :: 0 <= k < |ws| ==> WordAt(b, 8 + 8 * k) == ws[k] {
      assert WordAt(b, 8 + 8 * 0) == ws[0] && WordAt(b, 8 + 8 * 1) == ws[1] && WordAt(b, 8 + 8 * 2) == ws[2];
      assert WordAt(b, 8 + 8 * 3) == ws[3] && WordAt(b, 8 + 8 * 4) == ws[4] && WordAt(b, 8 + 8 * 5) == ws[5];
      assert WordAt(b, 8 + 8 * 6) == ws[6] && WordAt(b, 8 + 8 * 7) == ws[7] && WordAt(b, 8 + 8 * 8) == ws[8];
      assert WordAt(b, 8 + 8 * 9) == ws[9] && WordAt(b, 8 + 8 * 10) == ws[10] && WordAt(b, 8 + 8 * 11) == ws[11];
      assert WordAt(b, 8 + 8 * 12) == ws[12];
    }
  }

  lemma ReadHeaderIff(b: seq<Byte>, h: Header)
    requires |b| >= HEADER_SIZE
    ensures b[..HEADER_SIZE] == MAGIC + WordsBytes(HeaderWords(h)) <==>
      b[0..8] == MAGIC && WordAt(b, 8) == 1 && WordAt(b, 16) == HEADER_SIZE && ReadHeader(b) == h
  {
    hide WordAt, WordsBytes;
    ThirteenWords(b, HeaderWords(h));
    SplitIff(b[..HEADER_SIZE], MAGIC, WordsBytes(HeaderWords(h)));
    assert b[..HEADER_SIZE][..8] == b[0..8] && b[..HEADER_SIZE][8..] == b[8..HEADER_SIZE];
  }

  /** Parsing inverts the layout: for every byte string, the parser accepts it as a module exactly when
      that module is well formed and laid out in it. */
  lemma ParseInvertsLayout(b: seq<Byte>, m: Module)
    requires |b| < TWO64 && !Typed(b)
    ensures ReadModule(b) == Ok(m) <==> Laid(b, m)
  {
    hide WordAt, WordsBytes, HeaderOk, HeaderError, ReadSymbols, ReadRelocations, SymbolsLaid, RelocationsLaid, ReadHeader;
    if |b| >= HEADER_SIZE {
      ReadHeaderIff(b, m.header);
      HeaderErrorIff(m.header, |b|);
      if HeaderOk(m.header, |b|) {
        HeaderBounds(m.header, |b|);
        ReadSymbolsIff(b, m.header, m.header.symbolCount, m.symbols);
        ReadRelocationsIff(b, m.header, m.symbols, m.header.relocationCount, m.relocations);
      }
    } else {
      HeaderNeeded(m.header, |b|);
    }
  }

  lemma HeaderBounds(h: Header, total: Word)
    requires HeaderOk(h, total)
    ensures h.codeOffset + h.codeSize <= total && h.rodataOffset + h.rodataSize <= total
    ensures h.symbolOffset + SYMBOL_SIZE * h.symbolCount <= total
    ensures h.relocationOffset + RELOCATION_SIZE * h.relocationCount <= total
  {
  }

  lemma HeaderNeeded(h: Header, total: Word)
    ensures HeaderOk(h, total) ==> total >= HEADER_SIZE
  {
  }

  /** What holds of every accepted module. */
  lemma AcceptedModules(b: seq<Byte>)
    requires |b| < TWO64 && !Typed(b) && ReadModule(b).Ok?
    ensures var m := ReadModule(b).value; var h := m.header;
      && HEADER_SIZE == h.codeOffset && h.codeOffset + |m.code| <= h.rodataOffset
      && h.rodataOffset + |m.rodata| <= h.symbolOffset
      && h.symbolOffset + SYMBOL_SIZE * |m.symbols| == h.relocationOffset
      && h.relocationOffset + RELOCATION_SIZE * |m.relocations| == |b|
      && (forall i, j :: 0 <= i < j < |m.symbols| ==> m.symbols[i].name != m.symbols[j].name)
      && (forall k :: 0 <= k < |m.relocations| ==>
            var r := m.relocations[k];
            r.offset + 8 <= |m.code| && r.symbol < |m.symbols| && m.symbols[r.symbol].binding == IMPORT)
  {
    hide ReadModule, WordsBytes;
    var m := ReadModule(b).value;
    ParseInvertsLayout(b, m);
    HeaderBounds(m.header, |b|);
    forall i, j | 0 <= i < j < |m.symbols|
      ensures m.symbols[i].name != m.symbols[j].name
    {
      assert SymbolLaid(b, m.header, m.symbols, j);
      assert m.symbols[..j][i] == m.symbols[i];
    }
  }
}
