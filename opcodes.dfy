/** Instruction words of the interpreter: the 16-bit opcode, the fields the
    interpreter extracts from it, and the instruction forms it dispatches on. */
module Opcodes {
  import opened Bytes

  type nibble = n: int | 0 <= n < 0x10
  type address = a: int | 0 <= a < 0x1000
  type word = w: int | 0 <= w < 0x10000

  /** The 8xyN arithmetic and logic forms. */
  datatype AluOp = Mov | Or | And | Xor | Add | Sub | Shr | SubN | Shl

  /** One constructor per case of the interpreter's dispatch. SkipEqReg and
      SkipNeReg keep the low nibble because the interpreter does not look at it;
      Ignored holds every word the dispatch reaches but no case handles. */
  datatype Instr =
    | Cls                                      // 00E0
    | Ret                                      // 00EE
    | Jump(addr: address)                      // 1nnn
    | Call(addr: address)                      // 2nnn
    | SkipEqByte(x: nibble, kk: byte)          // 3xkk
    | SkipNeByte(x: nibble, kk: byte)          // 4xkk
    | SkipEqReg(x: nibble, y: nibble, n: nibble) // 5xyn
    | LoadByte(x: nibble, kk: byte)            // 6xkk
    | AddByte(x: nibble, kk: byte)             // 7xkk
    | Alu(x: nibble, y: nibble, op: AluOp)     // 8xy0 .. 8xyE
    | SkipNeReg(x: nibble, y: nibble, n: nibble) // 9xyn
    | LoadIndex(addr: address)                 // Annn
    | JumpV0(addr: address)                    // Bnnn
    | Random(x: nibble, kk: byte)              // Cxkk
    | Draw(x: nibble, y: nibble, n: nibble)    // Dxyn
    | SkipKey(x: nibble)                       // Ex9E
    | SkipNoKey(x: nibble)                     // ExA1
    | LoadDelay(x: nibble)                     // Fx07
    | WaitKey(x: nibble)                       // Fx0A
    | SetDelay(x: nibble)                      // Fx15
    | SetSound(x: nibble)                      // Fx18
    | AddIndex(x: nibble)                      // Fx1E
    | LoadFont(x: nibble)                      // Fx29
    | StoreBcd(x: nibble)                      // Fx33
    | StoreRegs(x: nibble)                     // Fx55
    | LoadRegs(x: nibble)                      // Fx65
    | Ignored(opcode: word)                    // 0nnn, 8xyN, ExNN, FxNN without a case

  /** The low nibble selecting an 8xyN form. */
  function AluCode(op: AluOp): nibble
  {
    match op
    case Mov => 0x0
    case Or => 0x1
    case And => 0x2
    case Xor => 0x3
    case Add => 0x4
    case Sub => 0x5
    case Shr => 0x6
    case SubN => 0x7
    case Shl => 0xE
  }

  /** The 8xyN forms the interpreter recognises, by low nibble. */
  function AluOf(n: nibble): Option<AluOp>
  {
    if n == 0x0 then Some(Mov)
    else if n == 0x1 then Some(Or)
    else if n == 0x2 then Some(And)
    else if n == 0x3 then Some(Xor)
    else if n == 0x4 then Some(Add)
    else if n == 0x5 then Some(Sub)
    else if n == 0x6 then Some(Shr)
    else if n == 0x7 then Some(SubN)
    else if n == 0xE then Some(Shl)
    else None
  }

  datatype Option<T> = None | Some(value: T)

  /** The operand fields, as `(opcode & 0x0F00) >> 8`, `(opcode & 0x00F0) >> 4`,
      `opcode & 0xF`, `opcode & 0xFF` and `opcode & 0xFFF`. */
  function X(op: word): (r: nibble)
    ensures r == (op % 0x1000) / 0x100
  {
    (op / 0x100) % 0x10
  }

  function Y(op: word): (r: nibble)
    ensures r == (op % 0x100) / 0x10
  {
    (op / 0x10) % 0x10
  }

  function N(op: word): (r: nibble)
    ensures op == (op / 0x10) * 0x10 + r
  {
    op % 0x10
  }

  function KK(op: word): (r: byte)
    ensures op == (op / 0x100) * 0x100 + r
  {
    op % 0x100
  }

  function NNN(op: word): (r: address)
    ensures op == (op / 0x1000) * 0x1000 + r
  {
    op % 0x1000
  }

  /** The words some case of the dispatch handles, listed family by family. */
  predicate Handled(op: word)
  {
    var hi := op / 0x1000;
    (hi == 0x0 ==> op == 0x00E0 || op == 0x00EE) &&
    (hi == 0x8 ==> N(op) in {0x0, 0x1, 0x2, 0x3, 0x4, 0x5, 0x6, 0x7, 0xE}) &&
    (hi == 0xE ==> KK(op) == 0x9E || KK(op) == 0xA1) &&
    (hi == 0xF ==> KK(op) in {0x07, 0x0A, 0x15, 0x18, 0x1E, 0x29, 0x33, 0x55, 0x65})
  }

  /** The interpreter's dispatch: on `opcode & 0xF000`, then on the whole word for
      the 0 family, on the low nibble for the 8 family and on the low byte for the
      E and F families. */
  function Decode(op: word): (r: Instr)
    ensures r.Ignored? <==> !Handled(op)
    ensures r.Ignored? ==> r.opcode == op
  {
    var hi := op / 0x1000;
    var x, y, kk := X(op), Y(op), KK(op);
    if hi == 0x0 then
      if op == 0x00E0 then Cls else if op == 0x00EE then Ret else Ignored(op)
    else if hi == 0x1 then Jump(NNN(op))
    else if hi == 0x2 then Call(NNN(op))
    else if hi == 0x3 then SkipEqByte(x, kk)
    else if hi == 0x4 then SkipNeByte(x, kk)
    else if hi == 0x5 then SkipEqReg(x, y, N(op))
    else if hi == 0x6 then LoadByte(x, kk)
    else if hi == 0x7 then AddByte(x, kk)
    else if hi == 0x8 then
      match AluOf(N(op))
      case Some(f) => Alu(x, y, f)
      case None => Ignored(op)
    else if hi == 0x9 then SkipNeReg(x, y, N(op))
    else if hi == 0xA then LoadIndex(NNN(op))
    else if hi == 0xB then JumpV0(NNN(op))
    else if hi == 0xC then Random(x, kk)
    else if hi == 0xD then Draw(x, y, N(op))
    else if hi == 0xE then
      if kk == 0x9E then SkipKey(x) else if kk == 0xA1 then SkipNoKey(x) else Ignored(op)
    else
      if kk == 0x07 then LoadDelay(x)
      else if kk == 0x0A then WaitKey(x)
      else if kk == 0x15 then SetDelay(x)
      else if kk == 0x18 then SetSound(x)
      else if kk == 0x1E then AddIndex(x)
      else if kk == 0x29 then LoadFont(x)
      else if kk == 0x33 then StoreBcd(x)
      else if kk == 0x55 then StoreRegs(x)
      else if kk == 0x65 then LoadRegs(x)
      else Ignored(op)
  }


  /** The word with high nibble `hi`, then x, y and n. */
  function Word(hi: nibble, x: nibble, y: nibble, n: nibble): word
  {
    hi * 0x1000 + x * 0x100 + y * 0x10 + n
  }

  /** An instruction in the form Decode produces: an Ignored word is one that no
      case of the dispatch handles. */
  predicate WellFormed(ins: Instr)
  {
    ins.Ignored? ==> Decode(ins.opcode) == ins
  }

  /** The word an instruction is written as in a program image. */
  function Encode(ins: Instr): word
  {
    match ins
    case Cls => 0x00E0
    case Ret => 0x00EE
    case Jump(a) => 0x1000 + a
    case Call(a) => 0x2000 + a
    case SkipEqByte(x, kk) => 0x3000 + x * 0x100 + kk
    case SkipNeByte(x, kk) => 0x4000 + x * 0x100 + kk
    case SkipEqReg(x, y, n) => Word(0x5, x, y, n)
    case LoadByte(x, kk) => 0x6000 + x * 0x100 + kk
    case AddByte(x, kk) => 0x7000 + x * 0x100 + kk
    case Alu(x, y, f) => Word(0x8, x, y, AluCode(f))
    case SkipNeReg(x, y, n) => Word(0x9, x, y, n)
    case LoadIndex(a) => 0xA000 + a
    case JumpV0(a) => 0xB000 + a
    case Random(x, kk) => 0xC000 + x * 0x100 + kk
    case Draw(x, y, n) => Word(0xD, x, y, n)
    case SkipKey(x) => 0xE000 + x * 0x100 + 0x9E
    case SkipNoKey(x) => 0xE000 + x * 0x100 + 0xA1
    case LoadDelay(x) => 0xF000 + x * 0x100 + 0x07
    case WaitKey(x) => 0xF000 + x * 0x100 + 0x0A
    case SetDelay(x) => 0xF000 + x * 0x100 + 0x15
    case SetSound(x) => 0xF000 + x * 0x100 + 0x18
    case AddIndex(x) => 0xF000 + x * 0x100 + 0x1E
    case LoadFont(x) => 0xF000 + x * 0x100 + 0x29
    case StoreBcd(x) => 0xF000 + x * 0x100 + 0x33
    case StoreRegs(x) => 0xF000 + x * 0x100 + 0x55
    case LoadRegs(x) => 0xF000 + x * 0x100 + 0x65
    case Ignored(op) => op
  }

  lemma Div16(a: int, q: int, r: int)
    requires 0 <= r < 0x10 && a == q * 0x10 + r
    ensures a / 0x10 == q && a % 0x10 == r
  {
  }

  lemma Div256(a: int, q: int, r: int)
    requires 0 <= r < 0x100 && a == q * 0x100 + r
    ensures a / 0x100 == q && a % 0x100 == r
  {
  }

  lemma Div4096(a: int, q: int, r: int)
    requires 0 <= r < 0x1000 && a == q * 0x1000 + r
    ensures a / 0x1000 == q && a % 0x1000 == r
  {
  }

  /** The fields of a word built from four nibbles are those nibbles. */
  lemma WordFields(hi: nibble, x: nibble, y: nibble, n: nibble)
    ensures Word(hi, x, y, n) / 0x1000 == hi
    ensures X(Word(hi, x, y, n)) == x && Y(Word(hi, x, y, n)) == y && N(Word(hi, x, y, n)) == n
    ensures KK(Word(hi, x, y, n)) == y * 0x10 + n
    ensures NNN(Word(hi, x, y, n)) == x * 0x100 + y * 0x10 + n
  {
    var w := Word(hi, x, y, n);
    Div4096(w, hi, x * 0x100 + y * 0x10 + n);
    Div256(w, hi * 0x10 + x, y * 0x10 + n);
    Div16(hi * 0x10 + x, hi, x);
    Div16(w, hi * 0x100 + x * 0x10 + y, n);
    Div16(hi * 0x100 + x * 0x10 + y, hi * 0x10 + x, y);
  }

  /** The fields of a word built from a register nibble and a byte. */
  lemma ByteFields(hi: nibble, x: nibble, kk: byte)
    ensures var w := hi * 0x1000 + x * 0x100 + kk;
      0 <= w < 0x10000 && w / 0x1000 == hi && X(w) == x && KK(w) == kk
  {
    Div16(kk, kk / 0x10, kk % 0x10);
    WordFields(hi, x, kk / 0x10, kk % 0x10);
  }

  /** The fields of a word built from an address. */
  lemma AddressFields(hi: nibble, a: address)
    ensures var w := hi * 0x1000 + a;
      0 <= w < 0x10000 && w / 0x1000 == hi && NNN(w) == a
  {
    Div4096(hi * 0x1000 + a, hi, a);
  }

  /** Every word is the four nibbles the dispatch reads from it. */
  lemma WordOfFields(op: word)
    ensures op == Word(op / 0x1000, X(op), Y(op), N(op))
    ensures KK(op) == Y(op) * 0x10 + N(op)
    ensures NNN(op) == X(op) * 0x100 + KK(op)
  {
    var hi, a := op / 0x1000, op % 0x1000;
    var x, kk := a / 0x100, a % 0x100;
    var y, n := kk / 0x10, kk % 0x10;
    assert op == hi * 0x1000 + x * 0x100 + y * 0x10 + n;
    Div256(op, hi * 0x10 + x, kk);
    Div16(hi * 0x10 + x, hi, x);
    Div16(op, hi * 0x100 + x * 0x10 + y, n);
    Div16(hi * 0x100 + x * 0x10 + y, hi * 0x10 + x, y);
  }

  /** AluOf and AluCode are inverse on the recognised 8xyN forms. */
  lemma AluCodeOf(n: nibble)
    ensures AluOf(n).Some? ==> AluCode(AluOf(n).value) == n
    ensures forall f :: AluOf(AluCode(f)) == Some(f)
  {
  }

  /** Decoding loses nothing: every word is the encoding of what it decodes to. */
  lemma {:induction false} EncodeDecode(op: word)
    ensures WellFormed(Decode(op))
    ensures Encode(Decode(op)) == op
  {
    WordOfFields(op);
    var hi := op / 0x1000;
    if hi == 0x8 {
      AluCodeOf(N(op));
    } else if hi == 0xE || hi == 0xF {
      EncodeDecodeKeyed(op);
    }
  }

  /** EncodeDecode for the Ex.. and Fx.. families, which dispatch on the low byte. */
  lemma EncodeDecodeKeyed(op: word)
    requires op / 0x1000 == 0xE || op / 0x1000 == 0xF
    ensures WellFormed(Decode(op))
    ensures Encode(Decode(op)) == op
  {
    ByteFieldsOf(op);
  }

  /** Every word is its high nibble, x and low byte. */
  lemma ByteFieldsOf(op: word)
    ensures op == (op / 0x1000) * 0x1000 + X(op) * 0x100 + KK(op)
  {
    var a := op % 0x1000;
    Div4096(op, op / 0x1000, a);
    Div256(op, op / 0x100, KK(op));
    Div16(op / 0x100, op / 0x1000, X(op));
  }

  /** Encoding is undone by decoding, for every instruction in decoded form. */
  lemma {:induction false} DecodeEncode(ins: Instr)
    requires WellFormed(ins)
    ensures Decode(Encode(ins)) == ins
  {
    if ins.Jump? || ins.Call? || ins.LoadIndex? || ins.JumpV0? {
      DecodeEncodeAddress(ins);
    } else if ins.SkipEqByte? || ins.SkipNeByte? || ins.LoadByte? || ins.AddByte? || ins.Random? {
      DecodeEncodeByte(ins);
    } else if ins.SkipEqReg? || ins.SkipNeReg? || ins.Draw? || ins.Alu? {
      DecodeEncodeRegs(ins);
    } else if ins.SkipKey? || ins.SkipNoKey? {
      ByteFields(0xE, ins.x, if ins.SkipKey? then 0x9E else 0xA1);
    } else if ins.Cls? || ins.Ret? || ins.Ignored? {
    } else {
      DecodeEncodeF(ins);
    }
  }

  lemma DecodeEncodeAddress(ins: Instr)
    requires ins.Jump? || ins.Call? || ins.LoadIndex? || ins.JumpV0?
    ensures Decode(Encode(ins)) == ins
  {
    var w := Encode(ins);
    AddressFields(w / 0x1000, ins.addr);
  }

  lemma DecodeEncodeByte(ins: Instr)
    requires ins.SkipEqByte? || ins.SkipNeByte? || ins.LoadByte? || ins.AddByte? || ins.Random?
    ensures Decode(Encode(ins)) == ins
  {
    var w := Encode(ins);
    ByteFields(w / 0x1000, ins.x, ins.kk);
  }

  lemma DecodeEncodeRegs(ins: Instr)
    requires ins.SkipEqReg? || ins.SkipNeReg? || ins.Draw? || ins.Alu?
    ensures Decode(Encode(ins)) == ins
  {
    if ins.Alu? {
      WordFields(0x8, ins.x, ins.y, AluCode(ins.op));
    } else {
      WordFields(Encode(ins) / 0x1000, ins.x, ins.y, ins.n);
    }
  }

  /** DecodeEncode for the Fx.. family. */
  lemma DecodeEncodeF(ins: Instr)
    requires ins.LoadDelay? || ins.WaitKey? || ins.SetDelay? || ins.SetSound? || ins.AddIndex?
          || ins.LoadFont? || ins.StoreBcd? || ins.StoreRegs? || ins.LoadRegs?
    ensures Decode(Encode(ins)) == ins
  {
    var kk := Encode(ins) - 0xF000 - ins.x * 0x100;
    ByteFields(0xF, ins.x, kk);
  }
}
