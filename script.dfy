/**
 * Bitcoin script as rust-bitcoin's `script::Builder` writes it: a sequence
 * of instructions, each an opcode or a data push, laid out byte by byte.
 * The disassembler is the partner of the builder: it shows the layout is
 * unambiguous, so a script is fully described by its instruction list.
 */
module Script {
  import opened Bytes

  const OP_0: Byte := 0x00
  const OP_PUSHDATA1: Byte := 0x4c
  const OP_PUSHDATA2: Byte := 0x4d
  const OP_PUSHDATA4: Byte := 0x4e
  const OP_1NEGATE: Byte := 0x4f
  const OP_IF: Byte := 0x63
  const OP_ELSE: Byte := 0x67
  const OP_ENDIF: Byte := 0x68
  const OP_RETURN: Byte := 0x6a
  const OP_DROP: Byte := 0x75
  const OP_CSV: Byte := 0xb2
  /** OP_NOP4, the opcode BIP-119 redefines as OP_CHECKTEMPLATEVERIFY. */
  const OP_NOP4: Byte := 0xb3

  /** Largest data push rust-bitcoin's `PushBytes` admits, plus one. */
  const PushLimit: nat := 0x1_0000_0000

  datatype Instruction = Op(code: Byte) | Push(data: seq<Byte>)

  /**
   * Opcodes 0x00..0x4e are the push opcodes, so an `Op` holds one above
   * them; a push holds fewer than 2^32 bytes.
   */
  predicate Valid(i: Instruction)
  {
    match i
    case Op(c) => c > OP_PUSHDATA4
    case Push(d) => |d| < PushLimit
  }

  predicate AllValid(s: seq<Instruction>)
  {
    forall k :: 0 <= k < |s| ==> Valid(s[k])
  }

  /** The length header `push_slice` writes before `n` bytes of data. */
  function PushPrefix(n: nat): (r: seq<Byte>)
    requires n < PushLimit
    ensures 1 <= |r| <= 5 && r[0] <= OP_PUSHDATA4
  {
    if n < OP_PUSHDATA1 then [n]
    else if n < 0x100 then [OP_PUSHDATA1, n]
    else if n < 0x1_0000 then [OP_PUSHDATA2] + LE(n, 2)
    else [OP_PUSHDATA4] + LE(n, 4)
  }

  function Encode(i: Instruction): seq<Byte>
    requires Valid(i)
  {
    match i
    case Op(c) => [c]
    case Push(d) => PushPrefix(|d|) + d
  }

  /** The bytes of a script built by pushing `s` in order. */
  function Assemble(s: seq<Instruction>): seq<Byte>
    requires AllValid(s)
  {
    if s == [] then [] else Encode(s[0]) + Assemble(s[1..])
  }

  lemma AssembleSingle(i: Instruction)
    requires Valid(i)
    ensures Assemble([i]) == Encode(i)
  {
    assert [i][1..] == [];
  }

  /** Assembling is a homomorphism: a script built in two parts is the two parts' bytes. */
  lemma {:induction false} AssembleConcat(s: seq<Instruction>, t: seq<Instruction>)
    requires AllValid(s) && AllValid(t)
    ensures AllValid(s + t)
    ensures Assemble(s + t) == Assemble(s) + Assemble(t)
  {
    if s == [] {
      assert s + t == t;
    } else {
      assert (s + t)[1..] == s[1..] + t;
      AssembleConcat(s[1..], t);
    }
  }

  /** Reads a push header: the data length and the header's own length. */
  function DecodePushHeader(b: seq<Byte>): (r: Option<(nat, nat)>)
    requires |b| > 0 && b[0] <= OP_PUSHDATA4
    ensures r.Some? ==> 1 <= r.value.1 <= |b|
  {
    if b[0] < OP_PUSHDATA1 then Some((b[0], 1))
    else if b[0] == OP_PUSHDATA1 then (if |b| < 2 then None else Some((b[1], 2)))
    else if b[0] == OP_PUSHDATA2 then (if |b| < 3 then None else Some((FromLE(b[1..3]), 3)))
    else if |b| < 5 then None else Some((FromLE(b[1..5]), 5))
  }

  /** Reads one instruction: the instruction and how many bytes it took. */
  function DecodeInstruction(b: seq<Byte>): (r: Option<(Instruction, nat)>)
    ensures r.Some? ==> 1 <= r.value.1 <= |b|
  {
    if |b| == 0 then None
    else if b[0] > OP_PUSHDATA4 then Some((Op(b[0]), 1))
    else match DecodePushHeader(b)
      case None => None
      case Some((len, h)) => if h + len <= |b| then Some((Push(b[h..h + len]), h + len)) else None
  }

  /** The instruction list a script's bytes stand for, if they parse. */
  function Disassemble(b: seq<Byte>): Option<seq<Instruction>>
    decreases |b|
  {
    if b == [] then Some([])
    else match DecodeInstruction(b)
      case None => None
      case Some((i, k)) =>
        match Disassemble(b[k..])
        case None => None
        case Some(rest) => Some([i] + rest)
  }

  lemma DecodeEncoded(i: Instruction, rest: seq<Byte>)
    requires Valid(i)
    ensures DecodeInstruction(Encode(i) + rest) == Some((i, |Encode(i)|))
  {
    var b := Encode(i) + rest;
    if i.Push? {
      var n := |i.data|;
      var p := PushPrefix(n);
      assert b == p + i.data + rest;
      if n < OP_PUSHDATA1 {
      } else if n < 0x100 {
      } else if n < 0x1_0000 {
        assert b[1..3] == LE(n, 2);
        assert Pow256(2) == 0x1_0000;
        LERoundTrip(n, 2);
      } else {
        assert b[1..5] == LE(n, 4);
        assert Pow256(4) == 0x1_0000_0000;
        LERoundTrip(n, 4);
      }
      assert b[|p|..|p| + n] == i.data;
    }
  }

  /** Disassembling an assembled script gives back its instructions. */
  lemma {:induction false} AssembleRoundTrip(s: seq<Instruction>)
    requires AllValid(s)
    ensures Disassemble(Assemble(s)) == Some(s)
  {
    if s != [] {
      var e := Encode(s[0]);
      var b := e + Assemble(s[1..]);
      assert b == Assemble(s);
      DecodeEncoded(s[0], Assemble(s[1..]));
      assert b[|e|..] == Assemble(s[1..]);
      AssembleRoundTrip(s[1..]);
      assert [s[0]] + s[1..] == s;
    }
  }

  /** Scripts built from different instruction lists differ. */
  lemma AssembleInjective(s: seq<Instruction>, t: seq<Instruction>)
    requires AllValid(s) && AllValid(t)
    requires Assemble(s) == Assemble(t)
    ensures s == t
  {
    AssembleRoundTrip(s);
    AssembleRoundTrip(t);
  }

  /**
   * `write_scriptint` for a non-negative number: minimal little-endian
   * bytes, with a zero byte appended when the top byte would otherwise read
   * as a sign bit.
   */
  function WriteScriptInt(n: nat): (r: seq<Byte>)
    decreases n
  {
    if n > 0xff then [n % 256] + WriteScriptInt(n / 256)
    else if n >= 0x80 then [n, 0]
    else [n]
  }

  /** The number a script interpreter reads from pushed bytes (CScriptNum). */
  function DecodeScriptNum(b: seq<Byte>): int
  {
    if b == [] then 0
    else
      var last := b[|b| - 1];
      var magnitude := FromLE(b[..|b| - 1]) + (last % 0x80) * Pow256(|b| - 1);
      if last >= 0x80 then -magnitude else magnitude
  }

  lemma {:induction false} FromLESnoc(s: seq<Byte>, x: Byte)
    ensures FromLE(s + [x]) == FromLE(s) + x * Pow256(|s|)
  {
    if s == [] {
      assert [x][1..] == [];
    } else {
      var t := s[1..];
      assert (s + [x])[1..] == t + [x];
      FromLESnoc(t, x);
      var m := x * Pow256(|t|);
      assert FromLE(s + [x]) == s[0] + 256 * (FromLE(t) + m);
      assert 256 * (FromLE(t) + m) == 256 * FromLE(t) + 256 * m;
      assert 256 * m == x * Pow256(|s|) by {
        assert Pow256(|s|) == 256 * Pow256(|t|);
      }
    }
  }

  lemma {:induction false} WriteScriptIntShape(n: nat)
    ensures |WriteScriptInt(n)| >= 1
    ensures WriteScriptInt(n)[|WriteScriptInt(n)| - 1] < 0x80
    ensures FromLE(WriteScriptInt(n)) == n
  {
    if n > 0xff {
      WriteScriptIntShape(n / 256);
      assert ([n % 256] + WriteScriptInt(n / 256))[1..] == WriteScriptInt(n / 256);
    } else if n >= 0x80 {
      assert [n, 0][1..] == [0];
      assert FromLE([0]) == 0 + 256 * FromLE([]);
    }
  }

  /** Bytes whose last byte has no sign bit read as their little-endian value. */
  lemma DecodeNonNegative(b: seq<Byte>)
    requires |b| >= 1 && b[|b| - 1] < 0x80
    ensures DecodeScriptNum(b) == FromLE(b)
  {
    var init := b[..|b| - 1];
    var last := b[|b| - 1];
    assert last % 0x80 == last;
    assert DecodeScriptNum(b) == FromLE(init) + last * Pow256(|init|);
    assert b == init + [last];
    FromLESnoc(init, last);
  }

  /** An interpreter reads back the number `write_scriptint` wrote. */
  lemma WriteScriptIntRoundTrip(n: nat)
    ensures DecodeScriptNum(WriteScriptInt(n)) == n
  {
    WriteScriptIntShape(n);
    DecodeNonNegative(WriteScriptInt(n));
  }

  lemma {:induction false} WriteScriptIntLength(n: nat, k: nat)
    requires n < Pow256(k)
    ensures |WriteScriptInt(n)| <= k + 1
  {
    if n > 0xff {
      assert k >= 2;
      WriteScriptIntLength(n / 256, k - 1);
    }
  }

  /**
   * `push_int` for the non-negative 32-bit values `push_sequence` passes it:
   * OP_0 for zero, OP_PUSHNUM_n for 1..16, otherwise a data push of the
   * script-number encoding.
   */
  function PushInt(n: U32): (r: Instruction)
    ensures Valid(r)
  {
    if n == 0 then Push([])
    else if n <= 16 then Op(0x50 + n)
    else
      assert Pow256(4) == 0x1_0000_0000;
      WriteScriptIntLength(n, 4);
      Push(WriteScriptInt(n))
  }

  /** The number an instruction leaves on the stack, if it pushes one. */
  function PushedNumber(i: Instruction): Option<int>
  {
    match i
    case Push(d) => Some(DecodeScriptNum(d))
    case Op(c) =>
      if 0x51 <= c <= 0x60 then Some(c - 0x50)
      else if c == OP_1NEGATE then Some(-1)
      else None
  }

  /** `push_int(n)` leaves exactly `n` on the stack. */
  lemma PushIntValue(n: U32)
    ensures PushedNumber(PushInt(n)) == Some(n)
  {
    if n > 16 {
      WriteScriptIntRoundTrip(n);
    }
  }
}
