/** The object-module parser, loop by loop. */

module AomParser {
  import opened Words
  import opened AomFormat

  /** A word at an absolute offset, or a truncation error. */
  method ReadWord(bytes: seq<Byte>, offset: Word) returns (r: Result<Word, Error>)
    ensures r == if offset + 8 <= |bytes| && offset + 8 < TWO64 then Ok(WordAt(bytes, offset)) else Err(Truncated)
  {
    if offset + 8 >= TWO64 || offset + 8 > |bytes| {
      return Err(Truncated);
    }
    return Ok(WordAt(bytes, offset));
  }

  /** The name of a symbol record: its length, its zero padding and its characters. */
  method ParseName(b: seq<Byte>) returns (r: Result<Name, Error>)
    requires |b| == SYMBOL_SIZE
    ensures r.Ok? <==>
      && 0 < WordAt(b, 0) <= 63 && NameOk(b[8..8 + WordAt(b, 0)])
      && forall i :: 8 + WordAt(b, 0) <= i < 72 ==> b[i] == 0
    ensures r.Ok? ==> r.value == b[8..8 + WordAt(b, 0)]
    ensures r.Err? ==> r.error == BadSymbol
  {
    hide WordAt;
    var length := WordAt(b, 0);
    if length == 0 || length > 63 {
      return Err(BadSymbol);
    }
    for i := 8 + length to 72
      invariant forall k :: 8 + length <= k < i ==> b[k] == 0
    {
      if b[i] != 0 {
        return Err(BadSymbol);
      }
    }
    var name := b[8..8 + length];
    if !NameStart(name[0]) {
      return Err(BadSymbol);
    }
    for i := 1 to |name|
      invariant forall k :: 1 <= k < i ==> NamePart(name[k])
    {
      if !NamePart(name[i]) {
        return Err(BadSymbol);
      }
    }
    return Ok(name);
  }

  method IsDuplicate(name: Name, symbols: seq<Symbol>) returns (found: bool)
    ensures found <==> !NewName(name, symbols)
  {
    for i := 0 to |symbols|
      invariant forall k :: 0 <= k < i ==> symbols[k].name != name
    {
      if symbols[i].name == name {
        return true;
      }
    }
    return false;
  }

  /** The parameter words, and zeros after them. */
  method ParseParameters(b: seq<Byte>, argc: nat) returns (r: Result<seq<Word>, Error>)
    requires |b| == SYMBOL_SIZE && argc <= 4
    ensures r.Ok? ==> r.value == Parameters(b, argc)
    ensures r.Ok? <==>
      && (forall p :: 0 <= p < argc ==> Parameters(b, argc)[p] != 3 && PublicType(Parameters(b, argc)[p]))
      && (forall p :: argc <= p < 4 ==> WordAt(b, 128 + 8 * p) == 0)
    ensures r.Err? ==> r.error == BadSymbol
  {
    hide WordAt;
    ghost var all := Parameters(b, argc);
    var types: seq<Word> := [];
    for p := 0 to argc
      invariant types == all[..p] && forall k :: 0 <= k < p ==> all[k] != 3 && PublicType(all[k])
    {
      var t := WordAt(b, 128 + 8 * p);
      assert all[p] == t;
      if t == 3 || !PublicType(t) {
        return Err(BadSymbol);
      }
      types := types + [t];
    }
    for p := argc to 4
      invariant forall k :: argc <= k < p ==> WordAt(b, 128 + 8 * k) == 0
    {
      if WordAt(b, 128 + 8 * p) != 0 {
        return Err(BadSymbol);
      }
    }
    return Ok(types);
  }

  method ParseSymbol(b: seq<Byte>, codeSize: nat, symbols: seq<Symbol>) returns (r: Result<Symbol, Error>)
    requires |b| == SYMBOL_SIZE
    ensures r == ReadSymbol(b, codeSize, symbols)
  {
    hide WordAt;
    var name := ParseName(b);
    if name.Err? {
      return Err(BadSymbol);
    }
    var duplicate := IsDuplicate(name.value, symbols);
    if duplicate {
      return Err(DuplicateSymbol);
    }
    var binding, kind, section, value, size := WordAt(b, 72), WordAt(b, 80), WordAt(b, 88), WordAt(b, 96), WordAt(b, 104);
    var returnType, argc := WordAt(b, 112), WordAt(b, 120);
    if kind != FUNCTION || argc > 4 || !PublicType(returnType) {
      return Err(BadSymbol);
    }
    if binding == EXPORT {
      if section != CODE || value >= codeSize || value % 8 != 0 {
        return Err(BadSymbol);
      }
    } else if binding == IMPORT {
      if section != UNDEFINED || value != 0 || size != 0 {
        return Err(BadSymbol);
      }
    } else {
      return Err(BadSymbol);
    }
    var types := ParseParameters(b, argc);
    if types.Err? {
      return Err(BadSymbol);
    }
    return Ok(Symbol(name.value, binding, kind, section, value, size, returnType, types.value));
  }

  lemma {:induction false} SymbolsStop(b: seq<Byte>, h: Header, k: nat, n: nat)
    requires h.symbolOffset + SYMBOL_SIZE * n <= |b| && k <= n && ReadSymbols(b, h, k).Err?
    ensures ReadSymbols(b, h, n) == ReadSymbols(b, h, k)
    decreases n
  {
    hide ReadSymbol, SymbolAt;
    if k < n {
      SymbolsStop(b, h, k, n - 1);
    }
  }

  lemma {:induction false} RelocationsStop(b: seq<Byte>, h: Header, symbols: seq<Symbol>, k: nat, n: nat)
    requires h.relocationOffset + RELOCATION_SIZE * n <= |b| && k <= n && ReadRelocations(b, h, symbols, k).Err?
    ensures ReadRelocations(b, h, symbols, n) == ReadRelocations(b, h, symbols, k)
    decreases n
  {
    hide ReadRelocation, RelocationAt;
    if k < n {
      RelocationsStop(b, h, symbols, k, n - 1);
    }
  }

  /** The table offsets are 64-bit words: none of their sums overflows or leaves the file. */
  method ParseSymbols(b: seq<Byte>, h: Header) returns (r: Result<seq<Symbol>, Error>)
    requires |b| < TWO64 && HeaderOk(h, |b|)
    ensures r == ReadSymbols(b, h, h.symbolCount)
  {
    hide ReadSymbol;
    var symbols := [];
    for index := 0 to h.symbolCount
      invariant ReadSymbols(b, h, index) == Ok(symbols)
    {
      var base: Word := h.symbolOffset + index * SYMBOL_SIZE;
      var end: Word := base + SYMBOL_SIZE;
      assert b[base..end] == SymbolAt(b, h, index);
      var s := ParseSymbol(b[base..end], h.codeSize, symbols);
      if s.Err? {
        SymbolsStop(b, h, index + 1, h.symbolCount);
        return Err(s.error);
      }
      symbols := symbols + [s.value];
    }
    return Ok(symbols);
  }

  method ParseRelocations(b: seq<Byte>, h: Header, symbols: seq<Symbol>) returns (r: Result<seq<Relocation>, Error>)
    requires |b| < TWO64 && HeaderOk(h, |b|)
    ensures r == ReadRelocations(b, h, symbols, h.relocationCount)
  {
    hide ReadRelocation, WordAt, Signed;
    var relocations := [];
    for index := 0 to h.relocationCount
      invariant ReadRelocations(b, h, symbols, index) == Ok(relocations)
    {
      var base: Word := h.relocationOffset + index * RELOCATION_SIZE;
      var end: Word := base + RELOCATION_SIZE;
      assert b[base..end] == RelocationAt(b, h, index);
      var one := ParseRelocation(b[base..end], h.codeSize, symbols);
      if one.Err? {
        RelocationsStop(b, h, symbols, index + 1, h.relocationCount);
        return Err(one.error);
      }
      relocations := relocations + [one.value];
    }
    return Ok(relocations);
  }

  method ParseRelocation(b: seq<Byte>, codeSize: nat, symbols: seq<Symbol>) returns (r: Result<Relocation, Error>)
    requires |b| == RELOCATION_SIZE
    ensures r == ReadRelocation(b, codeSize, symbols)
  {
    hide WordAt, Signed;
    var section, offset, width, kind := WordAt(b, 0), WordAt(b, 8), WordAt(b, 16), WordAt(b, 24);
    var symbol, addend := WordAt(b, 32), Signed(WordAt(b, 40));
    if section != CODE || width != 8 || kind != CALL_PC20 || offset % 8 != 0 {
      return Err(BadRelocation);
    }
    if offset + width >= TWO64 || offset + width > codeSize {
      return Err(BadRelocation);
    }
    if symbol >= |symbols| || symbols[symbol].binding != IMPORT {
      return Err(BadRelocation);
    }
    return Ok(Relocation(section, offset, width, kind, symbol, addend));
  }

  method Parse(b: seq<Byte>) returns (r: Result<Module, Error>)
    requires |b| < TWO64 && !Typed(b)
    ensures r == ReadModule(b)
  {
    hide WordAt, ReadSymbols, ReadRelocations, HeaderError, HeaderOk, ReadHeader;
    if |b| < HEADER_SIZE {
      return Err(Truncated);
    }
    if b[0..8] != MAGIC {
      return Err(BadMagic);
    }
    var version := ReadWord(b, 8);
    if version.value != 1 {
      return Err(UnsupportedVersion(version.value));
    }
    var size := ReadWord(b, 16);
    if size.value != HEADER_SIZE {
      return Err(BadHeaderSize(size.value));
    }
    var header := ReadHeader(b);
    var error := HeaderError(header, |b|);
    HeaderErrorIff(header, |b|);
    if error.Some? {
      return Err(error.value);
    }
    HeaderBounds(header, |b|);
    var symbols := ParseSymbols(b, header);
    if symbols.Err? {
      return Err(symbols.error);
    }
    var relocations := ParseRelocations(b, header, symbols.value);
    if relocations.Err? {
      return Err(relocations.error);
    }
    return Ok(Module(header, b[header.codeOffset..header.codeOffset + header.codeSize],
                     b[header.rodataOffset..header.rodataOffset + header.rodataSize], symbols.value, relocations.value));
  }
}
