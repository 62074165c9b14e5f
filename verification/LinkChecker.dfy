/** The protected link checker, loop by loop. */

module LinkChecker {
  import opened Words
  import A = AomFormat
  import opened LinkModel

  /** Sizes of the linked code and metadata and the number of frames. */
  method ProtectedGeometry(inputs: seq<Input>, profile: Profile, compatible: bool)
    returns (ok: bool, code: nat, metadata: int, frames: nat)
    requires AllValidated(inputs)
    ensures ok <==> GeometryOk(inputs, profile, compatible)
    ensures ok ==> code == CodeBefore(inputs, |inputs|) && metadata == MetadataBefore(inputs, |inputs|)
    ensures ok ==> frames == FramesBefore(inputs, |inputs|) && code + metadata < TWO64
  {
    code, metadata, frames := 0, 32, 0;
    if inputs == [] {
      return false, 0, 0, 0;
    }
    if profile == CompilerAbi2 && |inputs| != 1 {
      return false, 0, 0, 0;
    }
    if !compatible {
      return false, 0, 0, 0;
    }
    for i := 0 to |inputs|
      invariant code == CodeBefore(inputs, i) && metadata == MetadataBefore(inputs, i) && frames == FramesBefore(inputs, i)
      invariant code + metadata <= ImageLimit(profile)
      invariant forall k :: 0 <= k < i ==> ModuleFits(inputs, profile, k)
    {
      var m := inputs[i].m;
      assert Validated(inputs[i]);
      if inputs[i].size > ModuleLimit(profile) || code % m.header.codeAlign != 0 {
        assert !ModuleFits(inputs, profile, i);
        return false, 0, 0, 0;
      }
      code := code + |m.code|;
      metadata := metadata + |m.rodata| - 32;
      frames := frames + |inputs[i].frames|;
      if frames > MAX_FRAMES || code + metadata > ImageLimit(profile) {
        assert !ModuleFits(inputs, profile, i);
        return false, 0, 0, 0;
      }
    }
    return true, code, metadata, frames;
  }

  /** The table of exports by address. */
  ghost predicate Tabulates(at: map<nat, A.Symbol>, names: set<A.Name>, es: seq<Export>) {
    && (forall k :: 0 <= k < |es| ==> es[k].address in at && at[es[k].address] == es[k].symbol)
    && (forall a :: a in at ==> exists k :: 0 <= k < |es| && es[k].address == a)
    && (forall k :: 0 <= k < |es| ==> es[k].symbol.name in names)
    && (forall n :: n in names ==> exists k :: 0 <= k < |es| && es[k].symbol.name == n)
  }

  lemma TabulatesPush(at: map<nat, A.Symbol>, names: set<A.Name>, es: seq<Export>, e: Export)
    requires Tabulates(at, names, es) && e.address !in at && e.symbol.name !in names
    ensures Tabulates(at[e.address := e.symbol], names + {e.symbol.name}, es + [e])
  {
    var fs, bt, ns := es + [e], at[e.address := e.symbol], names + {e.symbol.name};
    forall k | 0 <= k < |fs|
      ensures fs[k].address in bt && bt[fs[k].address] == fs[k].symbol && fs[k].symbol.name in ns
    {
      assert k < |es| ==> es[k].address in at && es[k].symbol.name in names && fs[k] == es[k];
    }
    forall a | a in bt
      ensures exists k :: 0 <= k < |fs| && fs[k].address == a
    {
      if a == e.address {
        assert fs[|es|].address == a;
      } else {
        var k :| 0 <= k < |es| && es[k].address == a;
        assert fs[k].address == a;
      }
    }
    forall n | n in ns
      ensures exists k :: 0 <= k < |fs| && fs[k].symbol.name == n
    {
      if n == e.symbol.name {
        assert fs[|es|].symbol.name == n;
      } else {
        var k :| 0 <= k < |es| && es[k].symbol.name == n;
        assert fs[k].symbol.name == n;
      }
    }
  }

  lemma StillUnique(at: map<nat, A.Symbol>, names: set<A.Name>, es: seq<Export>, e: Export)
    requires Tabulates(at, names, es) && e.address !in at && e.symbol.name !in names && Unique(es)
    ensures Unique(es + [e])
  {
    forall k | 0 <= k < |es|
      ensures es[k].address != e.address && es[k].symbol.name != e.symbol.name
    {
      assert es[k].address in at && es[k].symbol.name in names;
    }
  }

  /** A repeated name or address spoils every longer list. */
  lemma Clash(at: map<nat, A.Symbol>, names: set<A.Name>, es: seq<Export>, e: Export, all: seq<Export>)
    requires Tabulates(at, names, es) && (e.address in at || e.symbol.name in names) && es + [e] <= all
    ensures !Unique(all)
  {
    assert all[|es|] == (es + [e])[|es|];
    if e.address in at {
      var k :| 0 <= k < |es| && es[k].address == e.address;
      assert all[k] == (es + [e])[k];
    } else {
      var k :| 0 <= k < |es| && es[k].symbol.name == e.symbol.name;
      assert all[k] == (es + [e])[k];
    }
  }

  lemma {:induction false} ExportsPrefix(inputs: seq<Input>, i: nat, n: nat)
    requires i <= n <= |inputs|
    ensures Exports(inputs, i) <= Exports(inputs, n)
    decreases n - i
  {
    if i < n {
      ExportsPrefix(inputs, i, n - 1);
    }
  }

  lemma {:induction false} ModuleExportsPrefix(base: nat, symbols: seq<A.Symbol>, i: nat, n: nat)
    requires i <= n <= |symbols|
    ensures ModuleExports(base, symbols, i) <= ModuleExports(base, symbols, n)
    decreases n - i
  {
    if i < n {
      ModuleExportsPrefix(base, symbols, i, n - 1);
    }
  }

  lemma ExportsSoFar(inputs: seq<Input>, i: nat, s: nat)
    requires i < |inputs| && s <= |inputs[i].m.symbols|
    ensures Exports(inputs, i) + ModuleExports(CodeBefore(inputs, i), inputs[i].m.symbols, s) <= Exports(inputs, |inputs|)
  {
    var symbols := inputs[i].m.symbols;
    ModuleExportsPrefix(CodeBefore(inputs, i), symbols, s, |symbols|);
    ExportsPrefix(inputs, i + 1, |inputs|);
  }

  method CollectExports(inputs: seq<Input>) returns (ok: bool, at: map<nat, A.Symbol>)
    ensures ok <==> Unique(Exports(inputs, |inputs|))
    ensures ok ==> exists names :: Tabulates(at, names, Exports(inputs, |inputs|))
  {
    hide Unique, Tabulates;
    at := map[];
    var names: set<A.Name> := {};
    var base := 0;
    NothingYet();
    for i := 0 to |inputs|
      invariant base == CodeBefore(inputs, i)
      invariant Tabulates(at, names, Exports(inputs, i)) && Unique(Exports(inputs, i))
    {
      var symbols := inputs[i].m.symbols;
      ghost var earlier := Exports(inputs, i);
      assert earlier + ModuleExports(base, symbols, 0) == earlier;
      for s := 0 to |symbols|
        invariant Tabulates(at, names, earlier + ModuleExports(base, symbols, s))
        invariant Unique(earlier + ModuleExports(base, symbols, s))
      {
        ghost var sofar := earlier + ModuleExports(base, symbols, s);
        if symbols[s].binding == A.EXPORT {
          var address := base + symbols[s].value;
          ghost var e := Export(address, symbols[s]);
          assert earlier + ModuleExports(base, symbols, s + 1) == sofar + [e];
          if symbols[s].name in names || address in at {
            ExportsSoFar(inputs, i, s + 1);
            Clash(at, names, sofar, e, Exports(inputs, |inputs|));
            return false, map[];
          }
          StillUnique(at, names, sofar, e);
          TabulatesPush(at, names, sofar, e);
          names := names + {symbols[s].name};
          at := at[address := symbols[s]];
        } else {
          assert earlier + ModuleExports(base, symbols, s + 1) == sofar;
        }
      }
      base := base + |inputs[i].m.code|;
    }
    return true, at;
  }

  lemma NothingYet()
    ensures Tabulates(map[], {}, []) && Unique([])
  {
  }

  /** Each frame of a module, moved by the module's base. */
  method CheckFrames(frames: seq<Frame>, base: nat, prefix: nat, program: seq<Frame>) returns (ok: bool)
    requires prefix + |frames| <= |program|
    ensures ok <==> forall f :: 0 <= f < |frames| ==> program[prefix + f] == Moved(frames[f], base)
  {
    for f := 0 to |frames|
      invariant forall k :: 0 <= k < f ==> program[prefix + k] == Moved(frames[k], base)
    {
      var before, after := frames[f], program[prefix + f];
      if after.entry != base + before.entry || after.end != base + before.end || after.size != before.size
         || after.locals != before.locals || |after.exits| != |before.exits| {
        return false;
      }
      for j := 0 to |before.exits|
        invariant forall k :: 0 <= k < j ==> after.exits[k] == base + before.exits[k]
      {
        if after.exits[j] != base + before.exits[j] {
          assert Moved(before, base).exits[j] == base + before.exits[j];
          return false;
        }
      }
      assert after.exits == Moved(before, base).exits;
    }
    return true;
  }

  /** One word, against the table of exports. */
  method CheckWord(
    at: map<nat, A.Symbol>, import_: Option<A.Symbol>, pc: nat, prefix: nat, before: Word, after: Word,
    ghost names: set<A.Name>, ghost es: seq<Export>)
    returns (ok: bool)
    requires Tabulates(at, names, es)
    ensures ok <==> Checks(es, import_, pc, prefix, before, after)
  {
    if Opcode(before) == PFRAME {
      return after == Reindexed(before, prefix);
    }
    if import_.None? {
      return after == before;
    }
    if after / LOW32 != before / LOW32 || after % LOW32 - after % FIELD22 != CALL * FIELD26 {
      return false;
    }
    var target := pc + Sign22(after % FIELD22) * 4;
    if target < 0 || target !in at {
      return false;
    }
    ghost var k :| 0 <= k < |es| && es[k].address == target;
    ok := SameSignature(at[target], import_.value);
  }

  /** The relocations of a module by offset; of several at one offset the last wins. */
  method IndexRelocations(rs: seq<A.Relocation>) returns (at: map<nat, A.Relocation>)
    ensures forall o: nat :: RelocationAt(rs, o) == if o in at then Some(at[o]) else None
  {
    at := map[];
    for k := 0 to |rs|
      invariant forall o: nat :: RelocationAt(rs[..k], o) == if o in at then Some(at[o]) else None
    {
      assert rs[..k + 1][..k] == rs[..k];
      at := at[rs[k].offset := rs[k]];
    }
    assert rs[..|rs|] == rs;
  }

  method CheckCode(
    inputs: seq<Input>, i: nat, base: nat, prefix: nat, code: seq<Byte>, at: map<nat, A.Symbol>,
    ghost names: set<A.Name>, ghost es: seq<Export>)
    returns (ok: bool)
    requires AllValidated(inputs) && i < |inputs| && base == CodeBefore(inputs, i) && prefix == FramesBefore(inputs, i)
    requires base + |inputs[i].m.code| <= |code| && Tabulates(at, names, es)
    ensures ok <==> forall k: nat :: InCode(inputs, code, i, k) ==> WordChecks(inputs, code, es, i, k)
  {
    hide Checks, Tabulates, A.WordAt;
    var m := inputs[i].m;
    assert Validated(inputs[i]);
    var relocations := IndexRelocations(m.relocations);
    for k := 0 to |m.code| / 8
      invariant forall j: nat :: j < k && InCode(inputs, code, i, j) ==> WordChecks(inputs, code, es, i, j)
    {
      var pc := base + 8 * k;
      RelocationIn(m.relocations, 8 * k);
      var import_ := if 8 * k in relocations then Some(m.symbols[relocations[8 * k].symbol]) else None;
      assert import_ == ImportOf(inputs, i, k);
      assert InCode(inputs, code, i, k);
      var one := CheckWord(at, import_, pc, prefix, A.WordAt(m.code, 8 * k), A.WordAt(code, pc), names, es);
      if !one {
        assert !WordChecks(inputs, code, es, i, k);
        return false;
      }
    }
    return true;
  }

  /** The whole check. The program is what the linked metadata declares, if it is well formed for the code. */
  method ValidateProtectedLink(
    inputs: seq<Input>, profile: Profile, compatible: bool, image: Image, program: Option<seq<Frame>>)
    returns (ok: bool)
    requires AllValidated(inputs)
    ensures ok <==> Accepted(inputs, profile, compatible, image, program)
  {
    hide GeometryOk, Unique, Tabulates, Exports, MainAtZero, WordChecks, FramesMoved, Moved;
    var fits, codeSize, metadataSize, frameCount := ProtectedGeometry(inputs, profile, compatible);
    if !fits {
      return false;
    }
    MetadataAtLeast(inputs, |inputs|);
    if image.codeSize != codeSize || image.litStart != codeSize || image.entry != 0
       || |image.bytes| != codeSize + metadataSize || image.slots != 1 {
      return false;
    }
    var code := image.bytes[..codeSize];
    if program.None? || |program.value| != frameCount {
      WrongFrames(inputs, program);
      return false;
    }
    var distinct, at := CollectExports(inputs);
    if !distinct {
      return false;
    }
    ghost var es := Exports(inputs, |inputs|);
    ghost var names :| Tabulates(at, names, es);
    var main := CheckMain(at, profile, names, es);
    if !main {
      return false;
    }
    ok := CheckModules(inputs, code, program.value, at, names, es);
    assert Shape(inputs, image) && code == Code(image);
  }

  lemma WrongFrames(inputs: seq<Input>, program: Option<seq<Frame>>)
    ensures program.Some? && |program.value| != FramesBefore(inputs, |inputs|) ==> !FramesMoved(inputs, program.value)
  {
  }

  lemma {:induction false} MetadataAtLeast(inputs: seq<Input>, n: nat)
    requires AllValidated(inputs) && n <= |inputs|
    ensures MetadataBefore(inputs, n) >= 32
  {
    if n > 0 {
      MetadataAtLeast(inputs, n - 1);
      assert Validated(inputs[n - 1]);
    }
  }

  method CheckMain(at: map<nat, A.Symbol>, profile: Profile, ghost names: set<A.Name>, ghost es: seq<Export>)
    returns (ok: bool)
    requires Tabulates(at, names, es)
    ensures ok <==> MainAtZero(es, profile)
  {
    if 0 !in at {
      return false;
    }
    ghost var k :| 0 <= k < |es| && es[k].address == 0;
    var entry := at[0];
    return entry.name == MAIN && entry.returnType == 1 && entry.parameterTypes == EntryParameters(profile);
  }

  ghost predicate ModuleAccepted(inputs: seq<Input>, code: seq<Byte>, program: seq<Frame>, es: seq<Export>, i: nat)
    requires AllValidated(inputs) && i < |inputs|
  {
    && FramesBefore(inputs, i) + |inputs[i].frames| <= |program|
    && (forall f :: 0 <= f < |inputs[i].frames| ==>
          program[FramesBefore(inputs, i) + f] == Moved(inputs[i].frames[f], CodeBefore(inputs, i)))
    && (forall k: nat :: InCode(inputs, code, i, k) ==> WordChecks(inputs, code, es, i, k))
  }

  /** Frames, then words, module after module. */
  method CheckModules(
    inputs: seq<Input>, code: seq<Byte>, program: seq<Frame>, at: map<nat, A.Symbol>,
    ghost names: set<A.Name>, ghost es: seq<Export>)
    returns (ok: bool)
    requires AllValidated(inputs) && Tabulates(at, names, es)
    requires |program| == FramesBefore(inputs, |inputs|) && |code| == CodeBefore(inputs, |inputs|)
    ensures ok <==>
      (&& FramesMoved(inputs, program)
       && forall i: nat, k: nat :: InCode(inputs, code, i, k) ==> WordChecks(inputs, code, es, i, k))
  {
    hide WordChecks, Moved, Tabulates, Framed, Parsed;
    var base, prefix := 0, 0;
    ModulesIff(inputs, code, program, es);
    hide FramesMoved;
    for i := 0 to |inputs|
      invariant base == CodeBefore(inputs, i) && prefix == FramesBefore(inputs, i)
      invariant forall j :: 0 <= j < i ==> ModuleAccepted(inputs, code, program, es, j)
    {
      CodeGrows(inputs, i + 1, |inputs|);
      FramesGrow(inputs, i + 1, |inputs|);
      var framed := CheckFrames(inputs[i].frames, base, prefix, program);
      if !framed {
        assert !ModuleAccepted(inputs, code, program, es, i);
        return false;
      }
      var coded := CheckCode(inputs, i, base, prefix, code, at, names, es);
      if !coded {
        assert !ModuleAccepted(inputs, code, program, es, i);
        return false;
      }
      assert ModuleAccepted(inputs, code, program, es, i);
      base := base + |inputs[i].m.code|;
      prefix := prefix + |inputs[i].frames|;
    }
    return true;
  }

  lemma {:induction false} FramesGrow(inputs: seq<Input>, i: nat, n: nat)
    requires i <= n <= |inputs|
    ensures FramesBefore(inputs, i) <= FramesBefore(inputs, n)
    decreases n - i
  {
    if i < n {
      FramesGrow(inputs, i, n - 1);
    }
  }

  lemma {:induction false} ModulesIff(inputs: seq<Input>, code: seq<Byte>, program: seq<Frame>, es: seq<Export>)
    requires AllValidated(inputs) && |program| == FramesBefore(inputs, |inputs|)
    ensures (forall i :: 0 <= i < |inputs| ==> ModuleAccepted(inputs, code, program, es, i)) <==>
      (FramesMoved(inputs, program) && forall i: nat, k: nat :: InCode(inputs, code, i, k) ==> WordChecks(inputs, code, es, i, k))
  {
    hide WordChecks, Moved, Framed, Parsed;
    if forall i :: 0 <= i < |inputs| ==> ModuleAccepted(inputs, code, program, es, i) {
      forall i, f | 0 <= i < |inputs| && 0 <= f < |inputs[i].frames|
        ensures FramesBefore(inputs, i) + f < |program|
        ensures program[FramesBefore(inputs, i) + f] == Moved(inputs[i].frames[f], CodeBefore(inputs, i))
      {
        assert ModuleAccepted(inputs, code, program, es, i);
      }
      forall i: nat, k: nat | InCode(inputs, code, i, k)
        ensures WordChecks(inputs, code, es, i, k)
      {
        assert ModuleAccepted(inputs, code, program, es, i);
      }
    }
    forall i | 0 <= i < |inputs|
      ensures FramesBefore(inputs, i) + |inputs[i].frames| <= |program|
    {
      FramesGrow(inputs, i + 1, |inputs|);
    }
  }
}
