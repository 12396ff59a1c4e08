/** Assembling instructions into memory (plugin/tools/patch.py). */
module Patching {
  import opened Prelude
  import opened Text
  import opened Numerals

  type Byte = x: int | 0 <= x < 256

  /** `Assemble(ea, instruction)`; `None` when the assembler rejects the text there. */
  type Assembler = (int, string) -> Option<seq<Byte>>

  datatype PatchError =
    | BadAddress(error: FormatError)
    | NoInstructions
    | ParseFailed(instruction: string)
    | OperationFailed(ea: int)

  // ----- the instruction list -----

  function Stripped(pieces: seq<string>): (r: seq<string>)
    ensures |r| == |pieces| && forall i :: 0 <= i < |r| ==> r[i] == Strip(pieces[i])
  {
    seq(|pieces|, i requires 0 <= i < |pieces| => Strip(pieces[i]))
  }

  function NonEmpty(pieces: seq<string>): seq<string> {
    if |pieces| == 0 then []
    else if |pieces[0]| == 0 then NonEmpty(pieces[1..])
    else [pieces[0]] + NonEmpty(pieces[1..])
  }

  /** The pieces between semicolons that are not blank, stripped. */
  function Pieces(instructions: string): seq<string> {
    NonEmpty(Stripped(Split(instructions, ';')))
  }

  lemma {:induction false} NonEmptyConcat(a: seq<string>, b: seq<string>)
    ensures NonEmpty(a + b) == NonEmpty(a) + NonEmpty(b)
  {
    if |a| == 0 {
      assert a + b == b;
    } else {
      assert (a + b)[0] == a[0] && (a + b)[1..] == a[1..] + b;
      NonEmptyConcat(a[1..], b);
    }
  }

  /** Nothing but empty pieces is dropped, and no empty piece is left. */
  lemma {:induction false} NonEmptyKeeps(pieces: seq<string>)
    ensures multiset(NonEmpty(pieces)) == multiset(pieces)["" := 0]
  {
    if |pieces| > 0 {
      NonEmptyKeeps(pieces[1..]);
      assert pieces == [pieces[0]] + pieces[1..];
    }
  }

  /** A text without semicolons is one instruction, stripped, or none if it is blank. */
  lemma OneInstruction(s: string)
    requires ';' !in s
    ensures Pieces(s) == if AllSpace(s) then [] else [Strip(s)]
  {
    SplitWithout(s, ';');
    var _, _ := StripExactly(s);
    var only := [Strip(s)];
    assert Stripped([s]) == only && only[1..] == [];
    assert NonEmpty(only) == if |only[0]| == 0 then [] else only;
  }

  /** As "nop; ret" is two: the blank after the semicolon is not part of the second. */
  lemma TwoInstructions(s: string, t: string)
    requires ';' !in s && ';' !in t && |s| > 0 && |t| > 0 && Strip(s) == s && Strip(t) == t
    ensures Pieces(s + ";" + ([' '] + t)) == [s, t]
  {
    OneInstruction(s);
    OneInstruction([' '] + t);
    LeadingSpace(' ', t);
    var _, _ := StripExactly(s);
    var _, _ := StripExactly([' '] + t);
    PiecesConcat(s, [' '] + t);
  }

  /** Lists joined by a semicolon hold the instructions of the one and then of the other. */
  lemma PiecesConcat(s: string, t: string)
    ensures Pieces(s + ";" + t) == Pieces(s) + Pieces(t)
  {
    SplitConcat(s, t, ';');
    var a, b := Split(s, ';'), Split(t, ';');
    assert s + ";" + t == s + [';'] + t;
    assert Stripped(a + b) == Stripped(a) + Stripped(b);
    NonEmptyConcat(Stripped(a), Stripped(b));
  }

  // ----- memory -----

  function Written(memory: map<int, Byte>, ea: int, raw: seq<Byte>): map<int, Byte>
    decreases |raw|
  {
    if |raw| == 0 then memory
    else Written(memory, ea, raw[..|raw| - 1])[ea + |raw| - 1 := raw[|raw| - 1]]
  }

  lemma {:induction false} WrittenConcat(memory: map<int, Byte>, ea: int, a: seq<Byte>, b: seq<Byte>)
    ensures Written(Written(memory, ea, a), ea + |a|, b) == Written(memory, ea, a + b)
    decreases |b|
  {
    if |b| == 0 {
      assert a + b == a;
    } else {
      WrittenConcat(memory, ea, a, b[..|b| - 1]);
      assert (a + b)[..|a + b| - 1] == a + b[..|b| - 1];
    }
  }

  /** Only the addresses of the bytes change, and they hold them. */
  lemma {:induction false} WrittenAt(memory: map<int, Byte>, ea: int, raw: seq<Byte>, at: int)
    ensures var now := Written(memory, ea, raw);
      if ea <= at < ea + |raw| then at in now && now[at] == raw[at - ea]
      else (at in now <==> at in memory) && (at in memory ==> now[at] == memory[at])
    decreases |raw|
  {
    if |raw| > 0 {
      WrittenAt(memory, ea, raw[..|raw| - 1], at);
    }
  }

  /** How many instructions are laid from `ea` on, each behind the one before, and their bytes. */
  function Assembled(asm: Assembler, ea: int, pieces: seq<string>): (r: (nat, seq<Byte>))
    ensures r.0 <= |pieces|
    decreases |pieces|
  {
    if |pieces| == 0 || asm(ea, pieces[0]).None? then (0, [])
    else
      var raw := asm(ea, pieces[0]).value;
      var (n, rest) := Assembled(asm, ea + |raw|, pieces[1..]);
      (n + 1, raw + rest)
  }

  /** The address at which the `k`-th instruction ends up: behind the bytes of the ones before it. */
  function AddressOf(asm: Assembler, ea: int, pieces: seq<string>, k: nat): int
    requires k <= |pieces|
  {
    ea + |Assembled(asm, ea, pieces[..k]).1|
  }

  /** Each instruction was assembled for the address at which its bytes lie, and there are no gaps. */
  lemma {:induction false} AssembledInPlace(asm: Assembler, ea: int, pieces: seq<string>, k: nat)
    requires k < Assembled(asm, ea, pieces).0
    ensures var bytes := Assembled(asm, ea, pieces).1;
      var here := AddressOf(asm, ea, pieces, k);
      var there := AddressOf(asm, ea, pieces, k + 1);
      && ea <= here <= there <= ea + |bytes|
      && asm(here, pieces[k]) == Some(bytes[here - ea..there - ea])
    decreases |pieces|
  {
    var raw := asm(ea, pieces[0]).value;
    var (_, rest) := Assembled(asm, ea + |raw|, pieces[1..]);
    Shifted(asm, ea, pieces, k + 1);
    if k == 0 {
      assert pieces[..0] == [];
      assert pieces[1..][..0] == [];
      assert (raw + rest)[0..|raw|] == raw;
    } else {
      Shifted(asm, ea, pieces, k);
      AssembledInPlace(asm, ea + |raw|, pieces[1..], k - 1);
      var here := AddressOf(asm, ea, pieces, k);
      var there := AddressOf(asm, ea, pieces, k + 1);
      SliceBehind(raw, rest, here - ea, there - ea);
    }
  }

  lemma SliceBehind(a: seq<Byte>, b: seq<Byte>, lo: nat, hi: nat)
    requires |a| <= lo <= hi <= |a| + |b|
    ensures (a + b)[lo..hi] == b[lo - |a|..hi - |a|]
  {}

  lemma Shifted(asm: Assembler, ea: int, pieces: seq<string>, k: nat)
    requires 0 < k <= |pieces| && asm(ea, pieces[0]).Some?
    ensures AddressOf(asm, ea, pieces, k) == AddressOf(asm, ea + |asm(ea, pieces[0]).value|, pieces[1..], k - 1)
  {
    assert pieces[..k][1..] == pieces[1..][..k - 1];
  }

  /** What stops a patch, if anything, is the first instruction that does not assemble behind the others. */
  lemma {:induction false} AssembledStops(asm: Assembler, ea: int, pieces: seq<string>)
    ensures var r := Assembled(asm, ea, pieces);
      && (r.0 < |pieces| ==> asm(ea + |r.1|, pieces[r.0]).None?)
    decreases |pieces|
  {
    if |pieces| > 0 && asm(ea, pieces[0]).Some? {
      AssembledStops(asm, ea + |asm(ea, pieces[0]).value|, pieces[1..]);
    }
  }

  lemma Assoc(a: seq<Byte>, b: seq<Byte>, c: seq<Byte>)
    ensures a + (b + c) == (a + b) + c
  {}

  /** One instruction in front of a list. */
  lemma AssembledCons(asm: Assembler, ea: int, first: string, rest: seq<string>)
    requires asm(ea, first).Some?
    ensures var raw := asm(ea, first).value;
      var r := Assembled(asm, ea + |raw|, rest);
      Assembled(asm, ea, [first] + rest) == (r.0 + 1, raw + r.1)
  {
    assert ([first] + rest)[1..] == rest;
  }

  /** Instructions behind a list that goes through are laid behind its bytes. */
  lemma {:induction false} AssembledConcat(asm: Assembler, ea: int, a: seq<string>, b: seq<string>)
    requires Assembled(asm, ea, a).0 == |a|
    ensures var first := Assembled(asm, ea, a).1;
      var second := Assembled(asm, ea + |first|, b);
      Assembled(asm, ea, a + b) == (|a| + second.0, first + second.1)
    decreases |a|
  {
    if |a| == 0 {
      assert a + b == b;
      assert [] + Assembled(asm, ea, b).1 == Assembled(asm, ea, b).1;
    } else {
      var raw := asm(ea, a[0]).value;
      var rest := Assembled(asm, ea + |raw|, a[1..]).1;
      assert a + b == [a[0]] + (a[1..] + b);
      AssembledConcat(asm, ea + |raw|, a[1..], b);
      AssembledCons(asm, ea, a[0], a[1..] + b);
      assert ea + |raw| + |rest| == ea + |raw + rest|;
      Assoc(raw, rest, Assembled(asm, ea + |raw + rest|, b).1);
    }
  }

  // ----- the tool -----

  /** All of these instructions are in place and the next one goes to `ea`. */
  ghost predicate InPlace(asm: Assembler, was: map<int, Byte>, start: int, done: seq<string>, ea: int,
                          now: map<int, Byte>)
  {
    && Assembled(asm, start, done).0 == |done|
    && ea == start + |Assembled(asm, start, done).1|
    && now == Written(was, start, Assembled(asm, start, done).1)
  }

  lemma OneMoreInPlace(asm: Assembler, was: map<int, Byte>, start: int, done: seq<string>, ea: int,
                       now: map<int, Byte>, next: string)
    requires InPlace(asm, was, start, done, ea, now) && asm(ea, next).Some?
    ensures var raw := asm(ea, next).value;
      InPlace(asm, was, start, done + [next], ea + |raw|, Written(now, ea, raw))
  {
    AssembledConcat(asm, start, done, [next]);
    assert Assembled(asm, ea, [next]) == (1, asm(ea, next).value) by {
      assert [next][1..] == [];
      assert asm(ea, next).value + [] == asm(ea, next).value;
    }
    WrittenConcat(was, start, Assembled(asm, start, done).1, asm(ea, next).value);
  }

  /** The first `i` instructions are in place, and the next one failed for this reason. */
  ghost predicate Stopped(asm: Assembler, writable: int -> bool, was: map<int, Byte>, start: int,
                          pieces: seq<string>, i: nat, error: PatchError, now: map<int, Byte>)
  {
    && i < |pieces|
    && var ea := AddressOf(asm, start, pieces, i);
       && InPlace(asm, was, start, pieces[..i], ea, now)
       && if asm(ea, pieces[i]).None? then error == ParseFailed(pieces[i])
          else !writable(ea) && error == OperationFailed(ea)
  }

  ghost predicate Patched(asm: Assembler, writable: int -> bool, was: map<int, Byte>, start: int,
                          pieces: seq<string>, r: Result<nat, PatchError>, now: map<int, Byte>)
  {
    match r
    case Ok(count) => count == |pieces| && InPlace(asm, was, start, pieces, AddressOf(asm, start, pieces, count), now)
    case Err(error) => exists i :: Stopped(asm, writable, was, start, pieces, i, error, now)
  }

  class Memory {
    var bytes: map<int, Byte>

    constructor (bytes: map<int, Byte>)
      ensures this.bytes == bytes
    {
      this.bytes := bytes;
    }

    /** `writable` is where `patch_bytes` goes through; elsewhere it raises and writes nothing. */
    method AssembleAndPatch(asm: Assembler, writable: int -> bool, ea: int, instruction: string)
      returns (r: Result<nat, PatchError>)
      modifies this
      ensures asm(ea, instruction).None? ==> r == Err(ParseFailed(instruction)) && bytes == old(bytes)
      ensures asm(ea, instruction).Some? && !writable(ea) ==> r == Err(OperationFailed(ea)) && bytes == old(bytes)
      ensures asm(ea, instruction).Some? && writable(ea) ==>
                && r == Ok(|asm(ea, instruction).value|)
                && bytes == Written(old(bytes), ea, asm(ea, instruction).value)
    {
      var raw := asm(ea, instruction);
      if raw.None? {
        return Err(ParseFailed(instruction));
      }
      if !writable(ea) {
        return Err(OperationFailed(ea));
      }
      bytes := Written(bytes, ea, raw.value);
      return Ok(|raw.value|);
    }

    /**
     On success the encodings lie one behind the other from the address on and nothing else has
     changed; on failure the same is true of exactly the instructions before the failing one.
     */
    method PatchAll(asm: Assembler, writable: int -> bool, start: int, pieces: seq<string>)
      returns (r: Result<nat, PatchError>)
      modifies this
      ensures Patched(asm, writable, old(bytes), start, pieces, r, bytes)
    {
      var ea := start;
      for i := 0 to |pieces|
        invariant InPlace(asm, old(bytes), start, pieces[..i], ea, bytes)
      {
        ghost var was := bytes;
        var length := AssembleAndPatch(asm, writable, ea, pieces[i]);
        if length.Err? {
          assert Stopped(asm, writable, old(bytes), start, pieces, i, length.error, bytes);
          return Err(length.error);
        }
        assert pieces[..i + 1] == pieces[..i] + [pieces[i]];
        OneMoreInPlace(asm, old(bytes), start, pieces[..i], ea, was, pieces[i]);
        ea := ea + length.value;
      }
      assert pieces[..|pieces|] == pieces;
      return Ok(|pieces|);
    }

    method PatchAddressAssembles(asm: Assembler, writable: int -> bool, address: string, instructions: string)
      returns (r: Result<nat, PatchError>)
      modifies this
      ensures ParseEa(address).Err? ==> r == Err(BadAddress(ParseEa(address).error)) && bytes == old(bytes)
      ensures ParseEa(address).Ok? && |Pieces(instructions)| == 0 ==>
                r == Err(NoInstructions) && bytes == old(bytes)
      ensures ParseEa(address).Ok? && |Pieces(instructions)| > 0 ==>
                Patched(asm, writable, old(bytes), ParseEa(address).value, Pieces(instructions), r, bytes)
    {
      var ea := ParseEa(address);
      if ea.Err? {
        return Err(BadAddress(ea.error));
      }
      var pieces := Pieces(instructions);
      if |pieces| == 0 {
        return Err(NoInstructions);
      }
      r := PatchAll(asm, writable, ea.value, pieces);
    }
  }

  /** Two lists that go through, the second behind the first, are one list that goes through. */
  lemma PatchesCompose(asm: Assembler, m0: map<int, Byte>, m1: map<int, Byte>, m2: map<int, Byte>,
                       start: int, middle: int, end: int, s: string, t: string)
    requires InPlace(asm, m0, start, Pieces(s), middle, m1)
    requires InPlace(asm, m1, middle, Pieces(t), end, m2)
    ensures InPlace(asm, m0, start, Pieces(s + ";" + t), end, m2)
  {
    PiecesConcat(s, t);
    InPlaceConcat(asm, m0, m1, m2, start, middle, end, Pieces(s), Pieces(t));
  }

  lemma InPlaceConcat(asm: Assembler, m0: map<int, Byte>, m1: map<int, Byte>, m2: map<int, Byte>,
                      start: int, middle: int, end: int, a: seq<string>, b: seq<string>)
    requires InPlace(asm, m0, start, a, middle, m1)
    requires InPlace(asm, m1, middle, b, end, m2)
    ensures InPlace(asm, m0, start, a + b, end, m2)
  {
    AssembledConcat(asm, start, a, b);
    WrittenConcat(m0, start, Assembled(asm, start, a).1, Assembled(asm, middle, b).1);
  }
}
