/** Protected links: what a linked image must be, and what the checker asks of one. */

module LinkModel {
  import opened Words
  import A = AomFormat

  datatype Local = Local(offset: nat, length: nat, alignment: nat, writable: bool, pointerSlot: bool)

  datatype Frame = Frame(entry: nat, end: nat, size: nat, exits: seq<nat>, locals: seq<Local>)

  /** A validated pointer module: its file size, its parsed module and its frame manifest. */
  datatype Input = Input(size: nat, m: A.Module, frames: seq<Frame>)

  datatype Profile = Application | CompilerAbi2 | LargeApplication

  datatype Image = Image(bytes: seq<Byte>, codeSize: nat, litStart: nat, entry: nat, slots: nat)

  function ModuleLimit(p: Profile): nat {
    match p
    case Application => 0x4_0000
    case CompilerAbi2 => 1024 * 1024
    case LargeApplication => 2 * 1024 * 1024
  }

  function ImageLimit(p: Profile): nat {
    if p == LargeApplication then 2 * 1024 * 1024 else 1024 * 1024
  }

  function EntryParameters(p: Profile): seq<Word> {
    if p == CompilerAbi2 then [2001, 1001] else []
  }

  const MAIN: A.Name := [0x6D, 0x61, 0x69, 0x6E]
  const MAX_FRAMES := 4096

  /** What parsing guarantees of an input. */
  predicate Parsed(input: Input) {
    var m := input.m;
    && |m.code| > 0 && |m.code| % 8 == 0 && |m.rodata| >= 32 && m.header.codeAlign != 0
    && (forall k :: 0 <= k < |m.relocations| ==> m.relocations[k].symbol < |m.symbols|)
    && (forall s :: 0 <= s < |m.symbols| && m.symbols[s].binding == A.EXPORT ==>
          m.symbols[s].value < |m.code| && m.symbols[s].value % 8 == 0)
  }

  const LOW32 := 0x1_0000_0000
  const FIELD26 := 0x400_0000
  const PFRAME := 0x2C

  /** The instruction at a multiple of four. */
  function Instruction(code: seq<Byte>, pc: nat): nat
    requires |code| % 8 == 0 && pc % 4 == 0 && pc < |code|
  {
    if pc % 8 == 0 then A.WordAt(code, pc) % LOW32 else A.WordAt(code, pc - 4) / LOW32
  }

  predicate InFrame(frames: seq<Frame>, f: nat, pc: nat) {
    f < |frames| && frames[f].entry <= pc < frames[f].end
  }

  /** What the validation of a frame manifest guarantees: the frames cover the code, each begins with the
      frame instruction of its own index, and no other frame instruction is in it. */
  ghost predicate Framed(code: seq<Byte>, frames: seq<Frame>)
    requires |code| % 8 == 0
  {
    && 0 < |frames| <= MAX_FRAMES
    && (forall pc: nat :: pc % 4 == 0 && pc < |code| ==> Covered(frames, pc))
    && (forall f: nat :: f < |frames| ==> Begins(code, frames[f].entry, f))
    && (forall f: nat, pc: nat :: InFrame(frames, f, pc) && pc % 4 == 0 && pc < |code| && pc != frames[f].entry ==>
          Instruction(code, pc) / FIELD26 != PFRAME)
  }

  ghost predicate Covered(frames: seq<Frame>, pc: nat) {
    exists f: nat :: InFrame(frames, f, pc)
  }

  predicate Begins(code: seq<Byte>, entry: nat, f: nat)
    requires |code| % 8 == 0
  {
    entry % 4 == 0 && entry < |code| && Instruction(code, entry) == PFRAME * FIELD26 + f
  }

  /** A validated pointer module. */
  ghost predicate Validated(input: Input) {
    Parsed(input) && Framed(input.m.code, input.frames)
  }

  ghost predicate AllValidated(inputs: seq<Input>) {
    forall i :: 0 <= i < |inputs| ==> Validated(inputs[i])
  }

  /** A parsed module meets the parser's guarantee. */
  lemma ParsedIsValidated(b: seq<Byte>, frames: seq<Frame>)
    requires |b| < TWO64 && !A.Typed(b) && A.ReadModule(b).Ok? && |A.ReadModule(b).value.rodata| >= 32
    ensures Parsed(Input(|b|, A.ReadModule(b).value, frames))
    ensures Validated(Input(|b|, A.ReadModule(b).value, frames)) <==> Framed(A.ReadModule(b).value.code, frames)
  {
    hide A.ReadModule, A.WordsBytes, A.SymbolBytes, A.RelocationBytes;
    var m := A.ReadModule(b).value;
    A.ParseInvertsLayout(b, m);
    A.HeaderBounds(m.header, |b|);
    forall s | 0 <= s < |m.symbols| && m.symbols[s].binding == A.EXPORT
      ensures m.symbols[s].value < |m.code| && m.symbols[s].value % 8 == 0
    {
      assert A.SymbolLaid(b, m.header, m.symbols, s);
    }
  }

  // ---- Geometry ----

  function CodeBefore(inputs: seq<Input>, n: nat): nat
    requires n <= |inputs|
  {
    if n == 0 then 0 else CodeBefore(inputs, n - 1) + |inputs[n - 1].m.code|
  }

  function MetadataBefore(inputs: seq<Input>, n: nat): int
    requires n <= |inputs|
  {
    if n == 0 then 32 else MetadataBefore(inputs, n - 1) + |inputs[n - 1].m.rodata| - 32
  }

  function FramesBefore(inputs: seq<Input>, n: nat): nat
    requires n <= |inputs|
  {
    if n == 0 then 0 else FramesBefore(inputs, n - 1) + |inputs[n - 1].frames|
  }

  predicate ModuleFits(inputs: seq<Input>, profile: Profile, i: nat)
    requires i < |inputs| && inputs[i].m.header.codeAlign != 0
  {
    && inputs[i].size <= ModuleLimit(profile)
    && CodeBefore(inputs, i) % inputs[i].m.header.codeAlign == 0
    && FramesBefore(inputs, i + 1) <= MAX_FRAMES
    && CodeBefore(inputs, i + 1) + MetadataBefore(inputs, i + 1) <= ImageLimit(profile)
  }

  /** Modules follow one another, each aligned, within the profile's limits. */
  ghost predicate GeometryOk(inputs: seq<Input>, profile: Profile, compatible: bool)
    requires AllValidated(inputs)
  {
    && inputs != [] && (profile == CompilerAbi2 ==> |inputs| == 1) && compatible
    && forall i :: 0 <= i < |inputs| ==> ModuleFits(inputs, profile, i)
  }

  // ---- Exports ----

  datatype Export = Export(address: nat, symbol: A.Symbol)

  function ModuleExports(base: nat, symbols: seq<A.Symbol>, n: nat): seq<Export>
    requires n <= |symbols|
  {
    if n == 0 then []
    else
      var s := symbols[n - 1];
      ModuleExports(base, symbols, n - 1) + if s.binding == A.EXPORT then [Export(base + s.value, s)] else []
  }

  /** Every export at its linked address, in order. */
  function Exports(inputs: seq<Input>, n: nat): seq<Export>
    requires n <= |inputs|
  {
    if n == 0 then []
    else
      var symbols := inputs[n - 1].m.symbols;
      Exports(inputs, n - 1) + ModuleExports(CodeBefore(inputs, n - 1), symbols, |symbols|)
  }

  /** No two exports share a name or an address. */
  ghost predicate Unique(es: seq<Export>) {
    forall j, k :: 0 <= j < k < |es| ==> es[j].symbol.name != es[k].symbol.name && es[j].address != es[k].address
  }

  predicate SameSignature(a: A.Symbol, b: A.Symbol) {
    a.name == b.name && a.kind == b.kind && a.returnType == b.returnType && a.parameterTypes == b.parameterTypes
  }

  /** The export with a name. */
  function Resolve(es: seq<Export>, name: A.Name): Option<Export>
    decreases es
  {
    if es == [] then None
    else if es[|es| - 1].symbol.name == name then Some(es[|es| - 1])
    else Resolve(es[..|es| - 1], name)
  }

  lemma {:induction false} ResolveIff(es: seq<Export>, name: A.Name, e: Export)
    requires Unique(es)
    ensures Resolve(es, name) == Some(e) <==> e in es && e.symbol.name == name
    decreases es
  {
    if es != [] {
      var n := |es| - 1;
      ResolveIff(es[..n], name, e);
      if e in es && e.symbol.name == name && es[n].symbol.name == name {
        var j :| 0 <= j < |es| && es[j] == e;
        assert j == n;
      }
      if e in es && e != es[n] {
        var j :| 0 <= j < |es| && es[j] == e;
        assert es[..n][j] == e;
      }
    }
  }

  // ---- Code words ----

  const FIELD22 := 0x40_0000
  const CALL := 50

  /** The opcode of the instruction in a word's low half. */
  function Opcode(w: Word): nat {
    w % LOW32 / FIELD26
  }

  /** A frame instruction whose manifest index is raised by the frames of the modules before it. */
  function Reindexed(w: Word, prefix: nat): nat {
    BitOr(w - w % FIELD26, w % FIELD26 + prefix)
  }

  function Sign22(field: nat): int {
    if field < FIELD22 / 2 then field else field - FIELD22
  }

  /** An unconditional CALL with a 22-bit distance, over the same high half. */
  function CallWord(before: Word, distance: int): (w: int)
    requires -(FIELD22 / 2) <= distance < FIELD22 / 2
  {
    before / LOW32 * LOW32 + CALL * FIELD26 + distance % FIELD22
  }

  /** The relocation at an offset; of several, the last. */
  function RelocationAt(rs: seq<A.Relocation>, offset: nat): Option<A.Relocation>
    decreases rs
  {
    if rs == [] then None
    else if rs[|rs| - 1].offset == offset then Some(rs[|rs| - 1])
    else RelocationAt(rs[..|rs| - 1], offset)
  }

  lemma {:induction false} RelocationIn(rs: seq<A.Relocation>, offset: nat)
    ensures RelocationAt(rs, offset).Some? ==> RelocationAt(rs, offset).value in rs
    decreases rs
  {
    if rs != [] {
      RelocationIn(rs[..|rs| - 1], offset);
    }
  }

  /** The import a word's relocation names, if the word has one. */
  function ImportAt(m: A.Module, offset: nat): Option<A.Symbol>
    requires forall k :: 0 <= k < |m.relocations| ==> m.relocations[k].symbol < |m.symbols|
  {
    RelocationIn(m.relocations, offset);
    var r := RelocationAt(m.relocations, offset);
    if r.Some? then Some(m.symbols[r.value.symbol]) else None
  }

  /** What the checker asks of one word: it decodes the target that was chosen and looks at the export there. */
  ghost predicate Checks(es: seq<Export>, import_: Option<A.Symbol>, pc: nat, prefix: nat, before: Word, after: Word) {
    if Opcode(before) == PFRAME then after == Reindexed(before, prefix)
    else if import_.Some? then
      && after / LOW32 == before / LOW32
      && after % LOW32 - after % FIELD22 == CALL * FIELD26
      && var target := pc + Sign22(after % FIELD22) * 4;
      exists k :: 0 <= k < |es| && es[k].address == target && SameSignature(es[k].symbol, import_.value)
    else after == before
  }

  /** The only word a linker may put there: the export is found by the import's name. */
  function Linked(es: seq<Export>, import_: Option<A.Symbol>, pc: nat, prefix: nat, before: Word): Option<int> {
    if Opcode(before) == PFRAME then Some(before + prefix)
    else if import_.Some? then
      var e := Resolve(es, import_.value.name);
      if e.Some? && SameSignature(e.value.symbol, import_.value) && (e.value.address - pc) % 4 == 0
         && -(FIELD22 / 2) <= (e.value.address - pc) / 4 < FIELD22 / 2
      then Some(CallWord(before, (e.value.address - pc) / 4))
      else None
    else Some(before)
  }

  lemma CallWordIff(before: Word, after: Word, distance: int)
    requires -(FIELD22 / 2) <= distance < FIELD22 / 2
    ensures after == CallWord(before, distance) <==>
      && after / LOW32 == before / LOW32 && after % LOW32 - after % FIELD22 == CALL * FIELD26
      && Sign22(after % FIELD22) == distance
  {
    var field := distance % FIELD22;
    assert Sign22(field) == distance;
    LowField(after);
    if after == CallWord(before, distance) {
      Quotient(before / LOW32, CALL * FIELD26 + field);
      FieldOf(before / LOW32, field);
    }
  }

  lemma LowField(w: Word)
    ensures w == w / LOW32 * LOW32 + w % LOW32
    ensures 0 <= w % FIELD22 < FIELD22
  {
  }

  lemma Quotient(hi: nat, low: nat)
    requires low < LOW32
    ensures (hi * LOW32 + low) / LOW32 == hi && (hi * LOW32 + low) % LOW32 == low
  {
  }

  lemma FieldOf(hi: nat, field: nat)
    requires field < FIELD22
    ensures (hi * LOW32 + (CALL * FIELD26 + field)) % FIELD22 == field
  {
    assert hi * LOW32 + (CALL * FIELD26 + field) == (hi * 1024 + CALL * 16) * FIELD22 + field;
  }

  // ---- Frame indices ----

  /** A number moved up by n bits. */
  function Shifted(a: nat, n: nat): nat {
    if n == 0 then a else 2 * Shifted(a, n - 1)
  }

  lemma {:induction false} ShiftedIs(a: nat, n: nat)
    ensures Shifted(a, n) == a * Pow2(n)
  {
    if n > 0 {
      ShiftedIs(a, n - 1);
    }
  }

  /** The bits of a shifted number and of one below 2^n do not overlap. */
  lemma {:induction false} OrDisjoint(a: nat, b: nat, n: nat)
    requires b < Pow2(n)
    ensures BitOr(Shifted(a, n), b) == Shifted(a, n) + b
    decreases n
  {
    if n > 0 && b > 0 {
      OrDisjoint(a, b / 2, n - 1);
    }
  }

  lemma Pow26()
    ensures Pow2(26) == FIELD26
  {
    assert Pow2(4) == 16 && Pow2(8) == 256 && Pow2(12) == 4096 && Pow2(16) == 0x1_0000;
    assert Pow2(20) == 0x10_0000 && Pow2(24) == 0x100_0000;
  }

  /** While the index stays below 2^26, reindexing adds the earlier frames to it. */
  lemma ReindexedAdds(w: Word, prefix: nat)
    requires w % FIELD26 + prefix < FIELD26
    ensures Reindexed(w, prefix) == w + prefix
  {
    Pow26();
    hide Pow2, BitOr, Shifted;
    var q := w / FIELD26;
    assert w == q * FIELD26 + w % FIELD26;
    ShiftedIs(q, 26);
    OrDisjoint(q, w % FIELD26 + prefix, 26);
  }

  /** In a validated module a frame instruction's index is one of the manifest's, so the linked index,
      with every module in place, is still one of at most 4096. */
  lemma FrameIndexFits(inputs: seq<Input>, i: nat, k: nat)
    requires AllValidated(inputs) && i < |inputs| && 8 * k + 8 <= |inputs[i].m.code|
    requires Opcode(A.WordAt(inputs[i].m.code, 8 * k)) == PFRAME && FramesBefore(inputs, i + 1) <= MAX_FRAMES
    ensures var w := A.WordAt(inputs[i].m.code, 8 * k);
      && w % FIELD26 < |inputs[i].frames| && inputs[i].frames[w % FIELD26].entry == 8 * k
      && w % FIELD26 + FramesBefore(inputs, i) < FramesBefore(inputs, i + 1) < FIELD26
  {
    hide A.WordAt, Parsed, Framed;
    assert Validated(inputs[i]);
    CodeEven(inputs[i]);
    OwnIndex(inputs[i].m.code, inputs[i].frames, k);
    ManifestSize(inputs[i].m.code, inputs[i].frames);
  }

  lemma OwnIndex(code: seq<Byte>, frames: seq<Frame>, k: nat)
    requires |code| % 8 == 0 && 8 * k + 8 <= |code| && Framed(code, frames)
    requires Opcode(A.WordAt(code, 8 * k)) == PFRAME
    ensures var f := A.WordAt(code, 8 * k) % FIELD26; f < |frames| && frames[f].entry == 8 * k
  {
    hide A.WordAt;
    var w := A.WordAt(code, 8 * k);
    assert Covered(frames, 8 * k);
    var f: nat :| InFrame(frames, f, 8 * k);
    assert Instruction(code, 8 * k) == w % LOW32;
    assert frames[f].entry == 8 * k && Begins(code, frames[f].entry, f);
    FieldIn(w, f);
  }

  lemma ManifestSize(code: seq<Byte>, frames: seq<Frame>)
    requires |code| % 8 == 0 && Framed(code, frames)
    ensures 0 < |frames| <= MAX_FRAMES
  {
  }

  lemma CodeEven(input: Input)
    requires Parsed(input)
    ensures |input.m.code| % 8 == 0
  {
  }

  lemma FieldIn(w: Word, f: nat)
    requires f < FIELD26 && w % LOW32 == PFRAME * FIELD26 + f
    ensures w % FIELD26 == f
  {
    var q := w / LOW32;
    assert w == (q * 64 + PFRAME) * FIELD26 + f;
  }

  /** The checker accepts a word exactly when it is the linker's. */
  lemma ChecksIff(es: seq<Export>, import_: Option<A.Symbol>, pc: nat, prefix: nat, before: Word, after: Word)
    requires Unique(es) && (Opcode(before) == PFRAME ==> before % FIELD26 + prefix < FIELD26)
    ensures Checks(es, import_, pc, prefix, before, after) <==> Linked(es, import_, pc, prefix, before) == Some(after)
  {
    hide CallWord, Reindexed, Opcode;
    if Opcode(before) == PFRAME {
      ReindexedAdds(before, prefix);
    } else if import_.Some? {
      var found := Resolve(es, import_.value.name);
      var distance := Sign22(after % FIELD22);
      CallWordIff(before, after, distance);
      if Checks(es, import_, pc, prefix, before, after) {
        var k :| 0 <= k < |es| && es[k].address == pc + distance * 4 && SameSignature(es[k].symbol, import_.value);
        ResolveIff(es, import_.value.name, es[k]);
      }
      if Linked(es, import_, pc, prefix, before) == Some(after) {
        ResolveIff(es, import_.value.name, found.value);
        var k :| 0 <= k < |es| && es[k] == found.value;
        CallWordIff(before, after, (found.value.address - pc) / 4);
      }
    }
  }

  // ---- Accepted images ----

  function ImportOf(inputs: seq<Input>, i: nat, k: nat): Option<A.Symbol>
    requires i < |inputs| && Validated(inputs[i])
  {
    ImportAt(inputs[i].m, 8 * k)
  }

  predicate InCode(inputs: seq<Input>, code: seq<Byte>, i: nat, k: nat) {
    i < |inputs| && 8 * k + 8 <= |inputs[i].m.code| && CodeBefore(inputs, i) + 8 * k + 8 <= |code|
  }

  ghost predicate WordChecks(inputs: seq<Input>, code: seq<Byte>, es: seq<Export>, i: nat, k: nat)
    requires InCode(inputs, code, i, k) && Validated(inputs[i])
  {
    var pc := CodeBefore(inputs, i) + 8 * k;
    Checks(es, ImportOf(inputs, i, k), pc, FramesBefore(inputs, i), A.WordAt(inputs[i].m.code, 8 * k), A.WordAt(code, pc))
  }

  ghost predicate WordLinked(inputs: seq<Input>, code: seq<Byte>, es: seq<Export>, i: nat, k: nat)
    requires InCode(inputs, code, i, k) && Validated(inputs[i])
  {
    var pc := CodeBefore(inputs, i) + 8 * k;
    Linked(es, ImportOf(inputs, i, k), pc, FramesBefore(inputs, i), A.WordAt(inputs[i].m.code, 8 * k)) == Some(A.WordAt(code, pc))
  }

  function Moved(f: Frame, base: nat): Frame {
    f.(entry := base + f.entry, end := base + f.end,
       exits := seq(|f.exits|, j requires 0 <= j < |f.exits| => base + f.exits[j]))
  }

  /** The linked manifest is the inputs' frames in order, moved with their code. */
  ghost predicate FramesMoved(inputs: seq<Input>, program: seq<Frame>) {
    && |program| == FramesBefore(inputs, |inputs|)
    && forall i, f :: 0 <= i < |inputs| && 0 <= f < |inputs[i].frames| ==>
         FramesBefore(inputs, i) + f < |program|
         && program[FramesBefore(inputs, i) + f] == Moved(inputs[i].frames[f], CodeBefore(inputs, i))
  }

  /** The export at address 0 is main, with the profile's signature. */
  ghost predicate MainAtZero(es: seq<Export>, profile: Profile) {
    exists k :: 0 <= k < |es| && es[k].address == 0 && es[k].symbol.name == MAIN && es[k].symbol.returnType == 1
                && es[k].symbol.parameterTypes == EntryParameters(profile)
  }

  predicate Shape(inputs: seq<Input>, image: Image) {
    var total := CodeBefore(inputs, |inputs|);
    && image.codeSize == total && image.litStart == total && image.entry == 0 && image.slots == 1
    && |image.bytes| == total + MetadataBefore(inputs, |inputs|) && total <= |image.bytes|
  }

  function Code(image: Image): seq<Byte>
    requires image.codeSize <= |image.bytes|
  {
    image.bytes[..image.codeSize]
  }

  /** Everything but the code words. The program is what the linked metadata declares, if it is well formed. */
  ghost predicate Framework(inputs: seq<Input>, profile: Profile, compatible: bool, image: Image, program: Option<seq<Frame>>)
    requires AllValidated(inputs)
  {
    && GeometryOk(inputs, profile, compatible) && Shape(inputs, image)
    && program.Some? && FramesMoved(inputs, program.value)
    && Unique(Exports(inputs, |inputs|)) && MainAtZero(Exports(inputs, |inputs|), profile)
  }

  /** What the checker accepts. */
  ghost predicate Accepted(inputs: seq<Input>, profile: Profile, compatible: bool, image: Image, program: Option<seq<Frame>>)
    requires AllValidated(inputs)
  {
    && Framework(inputs, profile, compatible, image, program)
    && forall i: nat, k: nat :: InCode(inputs, Code(image), i, k) ==> WordChecks(inputs, Code(image), Exports(inputs, |inputs|), i, k)
  }

  /** What a linker that resolves imports by name would have produced. */
  ghost predicate IsLink(inputs: seq<Input>, profile: Profile, compatible: bool, image: Image, program: Option<seq<Frame>>)
    requires AllValidated(inputs)
  {
    && Framework(inputs, profile, compatible, image, program)
    && forall i: nat, k: nat :: InCode(inputs, Code(image), i, k) ==> WordLinked(inputs, Code(image), Exports(inputs, |inputs|), i, k)
  }

  /** Accepted links are correct: the checker, which never searches by name, accepts exactly the images
      in which each word is the input word, a frame index moved by the frames of earlier modules, or a
      CALL to the one export with the import's name and identical signature, with main at address 0. */
  lemma AcceptedIsLink(inputs: seq<Input>, profile: Profile, compatible: bool, image: Image, program: Option<seq<Frame>>)
    requires AllValidated(inputs)
    ensures Accepted(inputs, profile, compatible, image, program) <==> IsLink(inputs, profile, compatible, image, program)
  {
    hide Exports, CodeBefore, FramesBefore, A.WordAt, Checks, Linked;
    if Framework(inputs, profile, compatible, image, program) {
      var es, code := Exports(inputs, |inputs|), Code(image);
      forall i: nat, k: nat | InCode(inputs, code, i, k)
        ensures WordChecks(inputs, code, es, i, k) <==> WordLinked(inputs, code, es, i, k)
      {
        var pc := CodeBefore(inputs, i) + 8 * k;
        if Opcode(A.WordAt(inputs[i].m.code, 8 * k)) == PFRAME {
          assert ModuleFits(inputs, profile, i);
          FrameIndexFits(inputs, i, k);
        }
        ChecksIff(es, ImportOf(inputs, i, k), pc, FramesBefore(inputs, i), A.WordAt(inputs[i].m.code, 8 * k), A.WordAt(code, pc));
      }
    }
  }

  /** Frame instructions keep naming their own frame: in an accepted image each stands where the input's
      stood, its index raised by the frames of the modules before it, and the linked manifest's frame of
      that index begins there. */
  lemma FramesNameThemselves(
    inputs: seq<Input>, profile: Profile, compatible: bool, image: Image, program: Option<seq<Frame>>, i: nat, k: nat)
    requires AllValidated(inputs) && Accepted(inputs, profile, compatible, image, program)
    requires InCode(inputs, Code(image), i, k) && Opcode(A.WordAt(inputs[i].m.code, 8 * k)) == PFRAME
    ensures var pc := CodeBefore(inputs, i) + 8 * k; var w := A.WordAt(Code(image), pc);
      && w == A.WordAt(inputs[i].m.code, 8 * k) + FramesBefore(inputs, i)
      && w % FIELD26 < |program.value| && program.value[w % FIELD26].entry == pc
  {
    hide Exports, CodeBefore, FramesBefore, A.WordAt, Checks, Framed;
    AcceptedIsLink(inputs, profile, compatible, image, program);
    assert WordLinked(inputs, Code(image), Exports(inputs, |inputs|), i, k);
    assert Validated(inputs[i]) && ModuleFits(inputs, profile, i);
    FrameIndexFits(inputs, i, k);
    FieldSum(A.WordAt(inputs[i].m.code, 8 * k), FramesBefore(inputs, i));
  }

  lemma FieldSum(w: Word, prefix: nat)
    requires w % FIELD26 + prefix < FIELD26
    ensures (w + prefix) % FIELD26 == w % FIELD26 + prefix
  {
  }

  // ---- Uniqueness ----

  /** Every 8-byte position of the linked code is a word of some input. */
  lemma {:induction false} FindWord(inputs: seq<Input>, n: nat, p: nat) returns (i: nat, k: nat)
    requires AllValidated(inputs) && n <= |inputs| && p % 8 == 0 && p < CodeBefore(inputs, n)
    ensures i < n && CodeBefore(inputs, i) + 8 * k == p && 8 * k + 8 <= |inputs[i].m.code|
    decreases n
  {
    CodeAligned(inputs, n - 1);
    if p < CodeBefore(inputs, n - 1) {
      i, k := FindWord(inputs, n - 1, p);
    } else {
      i := n - 1;
      assert Validated(inputs[i]);
      k := WordIndex(CodeBefore(inputs, i), |inputs[i].m.code|, p);
    }
  }

  lemma WordIndex(base: nat, length: nat, p: nat) returns (k: nat)
    requires base % 8 == 0 && length % 8 == 0 && p % 8 == 0 && base <= p < base + length
    ensures base + 8 * k == p && 8 * k + 8 <= length
  {
    k := (p - base) / 8;
  }

  lemma {:induction false} CodeAligned(inputs: seq<Input>, n: nat)
    requires AllValidated(inputs) && n <= |inputs|
    ensures CodeBefore(inputs, n) % 8 == 0
  {
    if n > 0 {
      CodeAligned(inputs, n - 1);
      assert Validated(inputs[n - 1]);
    }
  }

  lemma {:induction false} CodeGrows(inputs: seq<Input>, i: nat, n: nat)
    requires i <= n <= |inputs|
    ensures CodeBefore(inputs, i) <= CodeBefore(inputs, n)
    decreases n - i
  {
    if i < n {
      CodeGrows(inputs, i, n - 1);
    }
  }

  /** Byte strings with the same words are the same. */
  lemma SameWords(a: seq<Byte>, b: seq<Byte>)
    requires |a| == |b| && |a| % 8 == 0
    requires forall p :: 0 <= p < |a| && p % 8 == 0 ==> p + 8 <= |a| && A.WordAt(a, p) == A.WordAt(b, p)
    ensures a == b
  {
    forall j | 0 <= j < |a|
      ensures a[j] == b[j]
    {
      var p := j - j % 8;
      assert A.WordAt(a, p) == A.WordAt(b, p);
      hide A.WordAt;
      A.WordIff(a, p, A.WordAt(a, p));
      A.WordIff(b, p, A.WordAt(b, p));
      assert a[j] == a[p..p + 8][j - p] && b[j] == b[p..p + 8][j - p];
    }
  }

  lemma {:induction false} FindFrame(inputs: seq<Input>, n: nat, p: nat) returns (i: nat, f: nat)
    requires n <= |inputs| && p < FramesBefore(inputs, n)
    ensures i < n && f < |inputs[i].frames| && FramesBefore(inputs, i) + f == p
    decreases n
  {
    if p < FramesBefore(inputs, n - 1) {
      i, f := FindFrame(inputs, n - 1, p);
    } else {
      i, f := n - 1, p - FramesBefore(inputs, n - 1);
    }
  }

  lemma FramesUnique(inputs: seq<Input>, p: seq<Frame>, q: seq<Frame>)
    requires FramesMoved(inputs, p) && FramesMoved(inputs, q)
    ensures p == q
  {
    hide Moved;
    forall x | 0 <= x < |p|
      ensures p[x] == q[x]
    {
      var i, f := FindFrame(inputs, |inputs|, x);
      assert p[FramesBefore(inputs, i) + f] == Moved(inputs[i].frames[f], CodeBefore(inputs, i));
    }
  }

  /** Accepted links are unique: for every module list at most one code section and one frame manifest
      pass the checker. */
  lemma AcceptedIsUnique(
    inputs: seq<Input>, profile: Profile, compatible: bool, a: Image, pa: Option<seq<Frame>>, b: Image, pb: Option<seq<Frame>>)
    requires AllValidated(inputs)
    requires Accepted(inputs, profile, compatible, a, pa) && Accepted(inputs, profile, compatible, b, pb)
    ensures Code(a) == Code(b) && pa == pb
  {
    hide Exports, GeometryOk, FramesMoved, MainAtZero, Unique, Linked, A.WordAt;
    AcceptedIsLink(inputs, profile, compatible, a, pa);
    AcceptedIsLink(inputs, profile, compatible, b, pb);
    FramesUnique(inputs, pa.value, pb.value);
    CodeAligned(inputs, |inputs|);
    var n := CodeBefore(inputs, |inputs|);
    forall p | 0 <= p < n && p % 8 == 0
      ensures p + 8 <= n && A.WordAt(Code(a), p) == A.WordAt(Code(b), p)
    {
      var i, k := FindWord(inputs, |inputs|, p);
      CodeGrows(inputs, i + 1, |inputs|);
      assert InCode(inputs, Code(a), i, k) && InCode(inputs, Code(b), i, k);
      assert WordLinked(inputs, Code(a), Exports(inputs, |inputs|), i, k);
      assert WordLinked(inputs, Code(b), Exports(inputs, |inputs|), i, k);
    }
    SameWords(Code(a), Code(b));
  }
}
