/** The interpreter object: memory, registers, timers, stack and the display's frame
    buffer as mutable state, each operation proved to change that state exactly as
    the corresponding definition of the Semantics module says. */
module Chip8 {
  import opened Bytes
  import opened Opcodes
  import opened Semantics
  import Display

  class Machine {
    const quirks: Quirks
    const memory: array<byte>
    const v: array<byte>
    /** The display's pixelArr, owned by the machine. */
    const pixels: array<bool>
    var index: nat
    var pc: nat
    var dt: byte
    var st: byte
    var stack: seq<nat>
    var paused: bool
    /** The register the pending key-wait continuation writes. */
    var keyTarget: nibble

    ghost predicate Valid()
      reads this
    {
      memory.Length == MEMORY_SIZE && v.Length == REGISTERS &&
      pixels.Length == Display.SIZE && memory != v
    }

    /** The machine as a value of the Semantics module. */
    ghost function Model(): State
      reads this, memory, v, pixels
    {
      State(memory[..], v[..], index, pc, dt, st, stack, paused, keyTarget, pixels[..])
    }

    /** Reset state: zeroed memory and registers, PC at 0x200, empty stack, a clear
        screen, and the font written at address 0. */
    constructor (quirks: Quirks)
      ensures Valid() && this.quirks == quirks && Model() == Initial()
      ensures fresh(memory) && fresh(v) && fresh(pixels)
    {
      this.quirks := quirks;
      memory := new byte[MEMORY_SIZE](_ => 0);
      v := new byte[REGISTERS](_ => 0);
      pixels := new bool[Display.SIZE](_ => false);
      index, pc, dt, st := 0, PROGRAM_START, 0, 0;
      stack := [];
      paused := false;
      keyTarget := 0;
      new;
      LoadHexSpritesIntoRAM();
      assert memory[..] == InitialMemory();
      assert v[..] == seq(REGISTERS, _ => 0);
      assert pixels[..] == Display.Cleared();
    }

    method LoadHexSpritesIntoRAM()
      requires Valid()
      modifies memory
      ensures memory[..|FONT|] == FONT
      ensures memory[|FONT|..] == old(memory[|FONT|..])
    {
      var k := 0;
      while k < |FONT|
        invariant 0 <= k <= |FONT|
        invariant forall a :: 0 <= a < k ==> memory[a] == FONT[a]
        invariant forall a :: k <= a < memory.Length ==> memory[a] == old(memory[a])
      {
        memory[k] := FONT[k];
        k := k + 1;
      }
    }

    method LoadProgramIntoRAM(program: seq<byte>)
      requires Valid()
      modifies memory
      ensures memory[..] == LoadImage(old(memory[..]), program)
    {
      var k := 0;
      while k < |program|
        invariant 0 <= k <= |program|
        invariant memory[..] == LoadImage(old(memory[..]), program[..k])
      {
        assert program[..k + 1][..k] == program[..k];
        if PROGRAM_START + k < memory.Length {
          memory[PROGRAM_START + k] := program[k];
        }
        k := k + 1;
      }
      assert program[..|program|] == program;
    }

    /** togglePixel: flip the slot of (x, y) and report whether it was lit. */
    method TogglePixel(x: int, y: int) returns (erased: bool)
      requires Valid() && 0 <= Display.PixelIndex(x, y) < pixels.Length
      modifies pixels
      ensures (pixels[..], erased) == Display.Toggle(old(pixels[..]), x, y)
    {
      var (nx, ny) := Display.NormalizePixel(x, y);
      var p := nx + ny * Display.COLS;
      pixels[p] := !pixels[p];
      erased := !pixels[p];
    }

    /** clear: every pixel off. */
    method ClearScreen()
      requires Valid()
      modifies pixels
      ensures pixels[..] == Display.Cleared()
    {
      forall p | 0 <= p < pixels.Length {
        pixels[p] := false;
      }
    }

    /** The opcode at PC, high byte first; a byte past the end of memory reads as 0. */
    method FetchOpcode() returns (opcode: word)
      requires Valid()
      ensures opcode == Fetch(memory[..], pc)
    {
      var hi := if pc < memory.Length then memory[pc] else 0;
      var lo := if pc + 1 < memory.Length then memory[pc + 1] else 0;
      opcode := hi as int * 0x100 + lo;
    }

    /** One fetch and execute, the body of the loop in cycle when not paused. */
    method Step(keys: set<byte>, rnd: RandomByte)
      requires Valid() && CanStep(Model())
      modifies this, memory, v, pixels
      ensures Valid() && Model() == Semantics.Step(old(Model()), quirks, keys, rnd)
    {
      var opcode := FetchOpcode();
      ExecuteInstruction(opcode, keys, rnd);
    }

    method ExecuteInstruction(opcode: word, keys: set<byte>, rnd: RandomByte)
      requires Valid() && Executable(Model(), Decode(opcode))
      modifies this, memory, v, pixels
      ensures Valid()
      ensures Model() == Execute(old(Model()), opcode, quirks, keys, rnd)
    {
      pc := pc + 2;
      var ins := Decode(opcode);
      ghost var advanced := Model();
      assert advanced == old(Model()).(pc := old(pc) + 2);
      assert Execute(old(Model()), opcode, quirks, keys, rnd) == Exec(advanced, ins, quirks, keys, rnd);
      if ControlFlow(ins) {
        ExecuteFlow(ins, keys, rnd);
      } else {
        ExecuteData(ins, keys, rnd);
      }
    }

    /** The forms that change only PC, the stack or the screen. */
    static predicate ControlFlow(ins: Instr)
    {
      ins.Cls? || ins.Ret? || ins.Jump? || ins.Call? || ins.JumpV0? || ins.Ignored?
      || ins.SkipEqByte? || ins.SkipNeByte? || ins.SkipEqReg? || ins.SkipNeReg?
      || ins.SkipKey? || ins.SkipNoKey?
    }

    /** The instructions that change only PC, the stack or the screen. */
    method ExecuteFlow(ins: Instr, keys: set<byte>, rnd: RandomByte)
      requires Valid() && Executable(Model(), ins) && ControlFlow(ins)
      modifies this`pc, this`stack, pixels
      ensures Model() == Exec(old(Model()), ins, quirks, keys, rnd)
    {
      match ins {
        case Cls => ExecuteControl(ins, keys, rnd);
        case Ret => ExecuteControl(ins, keys, rnd);
        case Jump(_) => ExecuteControl(ins, keys, rnd);
        case Call(_) => ExecuteControl(ins, keys, rnd);
        case JumpV0(_) => ExecuteControl(ins, keys, rnd);
        case Ignored(_) =>
        case SkipEqByte(_, _) => ExecuteSkipByte(ins, keys, rnd);
        case SkipNeByte(_, _) => ExecuteSkipByte(ins, keys, rnd);
        case SkipEqReg(_, _, _) => ExecuteSkipReg(ins, keys, rnd);
        case SkipNeReg(_, _, _) => ExecuteSkipReg(ins, keys, rnd);
        case SkipKey(_) => ExecuteSkipKey(ins, keys, rnd);
        case SkipNoKey(_) => ExecuteSkipKey(ins, keys, rnd);
      }
    }

    /** The instructions that change registers, I, the timers, memory or the pixels. */
    method ExecuteData(ins: Instr, keys: set<byte>, rnd: RandomByte)
      requires Valid() && !ControlFlow(ins)
      modifies this, memory, v, pixels
      ensures Valid()
      ensures Model() == Exec(old(Model()), ins, quirks, keys, rnd)
    {
      match ins {
        case LoadByte(_, _) => ExecuteByte(ins, keys, rnd);
        case AddByte(_, _) => ExecuteByte(ins, keys, rnd);
        case Random(_, _) => ExecuteRead(ins, keys, rnd);
        case LoadDelay(_) => ExecuteRead(ins, keys, rnd);
        case Alu(x, y, f) => ExecuteAlu(x, y, f);
        case WaitKey(_) => ExecuteTimers(ins, keys, rnd);
        case SetDelay(_) => ExecuteTimers(ins, keys, rnd);
        case SetSound(_) => ExecuteTimers(ins, keys, rnd);
        case AddIndex(_) => ExecuteIndex(ins, keys, rnd);
        case LoadFont(_) => ExecuteIndex(ins, keys, rnd);
        case LoadIndex(_) => ExecuteIndex(ins, keys, rnd);
        case Draw(x, y, n) => DrawSprite(x, y, n);
        case StoreBcd(x) => StoreBcd(x);
        case StoreRegs(x) => StoreRegisters(x);
        case LoadRegs(x) => LoadRegisters(x);
      }
    }

    /** 00E0, 00EE, 1nnn, 2nnn and Bnnn. */
    method ExecuteControl(ins: Instr, ghost keys: set<byte>, ghost rnd: RandomByte)
      requires Valid() && Executable(Model(), ins)
      requires ins.Cls? || ins.Ret? || ins.Jump? || ins.Call? || ins.JumpV0?
      modifies this`pc, this`stack, pixels
      ensures Model() == Exec(old(Model()), ins, quirks, keys, rnd)
    {
      match ins {
        case Cls => ClearScreen();
        case Ret =>
          pc := stack[|stack| - 1];
          stack := stack[..|stack| - 1];
        case Jump(a) => pc := a;
        case Call(a) =>
          stack := stack + [pc];
          pc := a;
        case JumpV0(a) => pc := v[0] as int + a;
      }
    }

    /** The conditional skips on a byte, 3xkk and 4xkk. */
    method ExecuteSkipByte(ins: Instr, ghost keys: set<byte>, ghost rnd: RandomByte)
      requires Valid() && (ins.SkipEqByte? || ins.SkipNeByte?)
      modifies this`pc
      ensures Model() == Exec(old(Model()), ins, quirks, keys, rnd)
    {
      match ins {
        case SkipEqByte(x, kk) => if v[x] == kk { pc := pc + 2; }
        case SkipNeByte(x, kk) => if v[x] != kk { pc := pc + 2; }
      }
    }

    /** The conditional skips on two registers, 5xy0 and 9xy0. */
    method ExecuteSkipReg(ins: Instr, ghost keys: set<byte>, ghost rnd: RandomByte)
      requires Valid() && (ins.SkipEqReg? || ins.SkipNeReg?)
      modifies this`pc
      ensures Model() == Exec(old(Model()), ins, quirks, keys, rnd)
    {
      match ins {
        case SkipEqReg(x, y, _) => if v[x] == v[y] { pc := pc + 2; }
        case SkipNeReg(x, y, _) => if v[x] != v[y] { pc := pc + 2; }
      }
    }

    /** The conditional skips on the keyboard, Ex9E and ExA1. */
    method ExecuteSkipKey(ins: Instr, keys: set<byte>, ghost rnd: RandomByte)
      requires Valid() && (ins.SkipKey? || ins.SkipNoKey?)
      modifies this`pc
      ensures Model() == Exec(old(Model()), ins, quirks, keys, rnd)
    {
      match ins {
        case SkipKey(x) => if v[x] in keys { pc := pc + 2; }
        case SkipNoKey(x) => if v[x] !in keys { pc := pc + 2; }
      }
    }

    /** 6xkk and 7xkk: a byte into Vx. */
    method ExecuteByte(ins: Instr, ghost keys: set<byte>, ghost rnd: RandomByte)
      requires Valid() && (ins.LoadByte? || ins.AddByte?)
      modifies v
      ensures Model() == Exec(old(Model()), ins, quirks, keys, rnd)
    {
      match ins {
        case LoadByte(x, kk) => v[x] := kk;
        case AddByte(x, kk) => v[x] := (v[x] as int + kk) % 256;
      }
    }

    /** Cxkk and Fx07: the random byte or the delay timer into Vx. */
    method ExecuteRead(ins: Instr, ghost keys: set<byte>, rnd: RandomByte)
      requires Valid() && (ins.Random? || ins.LoadDelay?)
      modifies v
      ensures Model() == Exec(old(Model()), ins, quirks, keys, rnd)
    {
      match ins {
        case Random(x, kk) => v[x] := BitAnd(rnd, kk);
        case LoadDelay(x) => v[x] := dt;
      }
    }

    /** Fx0A, Fx15 and Fx18: the key wait and the timers. */
    method ExecuteTimers(ins: Instr, ghost keys: set<byte>, ghost rnd: RandomByte)
      requires Valid() && (ins.WaitKey? || ins.SetDelay? || ins.SetSound?)
      modifies this`paused, this`keyTarget, this`dt, this`st
      ensures Model() == Exec(old(Model()), ins, quirks, keys, rnd)
    {
      match ins {
        case WaitKey(x) =>
          paused := true;
          keyTarget := x;
        case SetDelay(x) => dt := v[x];
        case SetSound(x) => st := v[x];
      }
    }

    /** Annn, Fx1E and Fx29: I. */
    method ExecuteIndex(ins: Instr, ghost keys: set<byte>, ghost rnd: RandomByte)
      requires Valid() && (ins.LoadIndex? || ins.AddIndex? || ins.LoadFont?)
      modifies this`index
      ensures Model() == Exec(old(Model()), ins, quirks, keys, rnd)
    {
      match ins {
        case LoadIndex(a) => index := a;
        case AddIndex(x) => index := index + v[x];
        case LoadFont(x) => index := v[x] as int * 5;
      }
    }

    /** The 8xyN forms, statement by statement. */
    method ExecuteAlu(x: nibble, y: nibble, f: AluOp)
      requires Valid()
      modifies v
      ensures v[..] == AluResult(old(v[..]), x, y, f, quirks)
    {
      match f {
        case Mov => v[x] := v[y];
        case Or => v[x] := BitOr(v[x], v[y]); v[FLAG] := 0;
        case And => v[x] := BitAnd(v[x], v[y]); v[FLAG] := 0;
        case Xor => v[x] := BitXor(v[x], v[y]); v[FLAG] := 0;
        case Add =>
          v[x] := (v[x] as int + v[y]) % 256;
          v[FLAG] := if v[x] < v[y] then 1 else 0;
        case Sub =>
          v[x] := (v[x] as int - v[y]) % 256;
          v[FLAG] := if (v[x] as int + v[y]) % 256 < v[y] then 0 else 1;
        case Shr =>
          if quirks.originalShiftBehavior { v[x] := v[y]; }
          var bit := v[x] % 2;
          v[x] := v[x] / 2;
          v[FLAG] := bit;
        case SubN =>
          v[x] := (v[y] as int - v[x]) % 256;
          v[FLAG] := if v[x] > v[y] then 0 else 1;
        case Shl =>
          if quirks.originalShiftBehavior { v[x] := v[y]; }
          var bit := v[x] / 128;
          v[x] := (v[x] as int * 2) % 256;
          v[FLAG] := bit;
      }
    }

    /** Dxyn: reset VF, wrap the start position, then the row and column loops. */
    method DrawSprite(x: nibble, y: nibble, n: nibble)
      requires Valid()
      modifies v, pixels
      ensures Model() == Semantics.DrawSprite(old(Model()), x, y, n)
    {
      NormalizeStart(x, y);
      ghost var start := Model();
      var row := 0;
      while row < n
        invariant 0 <= row <= n && Valid()
        invariant Model() == DrawPrefix(start, x, y, row, 0)
      {
        DrawRow(x, y, row, start);
        row := row + 1;
      }
    }

    /** The statements of Dxyn before its loops. */
    method NormalizeStart(x: nibble, y: nibble)
      requires Valid()
      modifies v
      ensures Model() == DrawSetup(old(Model()), x, y)
    {
      v[FLAG] := 0;
      if v[x] > Display.COLS { v[x] := v[x] % Display.COLS; }
      if v[y] > Display.ROWS { v[y] := v[y] % Display.ROWS; }
    }

    /** One pass of the outer loop of Dxyn: the eight bits of sprite row `row`. */
    method DrawRow(x: nibble, y: nibble, row: nat, ghost start: State)
      requires Valid() && Semantics.Valid(start) && Model() == DrawPrefix(start, x, y, row, 0)
      modifies v, pixels
      ensures Model() == DrawPrefix(start, x, y, row + 1, 0)
    {
      var b := if index + row < memory.Length then memory[index + row] else 0;
      assert b == Peek(start.mem, start.index + row);
      var col := 0;
      while col < 8
        invariant 0 <= col <= 8
        invariant Model() == DrawPrefix(start, x, y, row, col)
      {
        DrawNext(x, y, row, col, b, start);
        col := col + 1;
      }
    }

    /** One pass of the inner loop, as a step from one prefix of the loops to the next. */
    method DrawNext(x: nibble, y: nibble, row: nat, col: nat, b: byte, ghost start: State)
      requires Valid() && Semantics.Valid(start) && col < 8 && b == Peek(start.mem, start.index + row)
      requires Model() == DrawPrefix(start, x, y, row, col)
      modifies v, pixels
      ensures Model() == DrawPrefix(start, x, y, row, col + 1)
    {
      DrawBit(x, y, row, col, b);
    }

    /** The body of the inner loop of Dxyn: sprite byte `b` is row `row` of the sprite. */
    method DrawBit(x: nibble, y: nibble, row: nat, col: nat, b: byte)
      requires Valid() && col < 8 && b == Peek(memory[..], index + row)
      modifies v, pixels
      ensures Model() == DrawPixel(old(Model()), x, y, row, col)
    {
      var bit := (b / Pow2(7 - col)) % 2;
      var px := v[x] as int + col;
      var py := v[y] as int + row;
      if bit == 1 && px < Display.COLS && py < Display.ROWS {
        Display.PixelIndexOnScreen(px, py);
        var erased := TogglePixel(px, py);
        if erased { v[FLAG] := 1; }
      }
    }

    /** Fx33: the decimal digits of Vx at I, I + 1 and I + 2. */
    method StoreBcd(x: nibble)
      requires Valid()
      modifies memory
      ensures memory[..] == StoreBcdMem(old(memory[..]), index, v[x])
    {
      if index < memory.Length { memory[index] := v[x] / 100; }
      if index + 1 < memory.Length { memory[index + 1] := (v[x] % 100) / 10; }
      if index + 2 < memory.Length { memory[index + 2] := v[x] % 10; }
    }

    /** Fx55: V0 .. Vx to memory from I on, moving I along under incrementIndex. */
    method StoreRegisters(x: nibble)
      requires Valid()
      modifies this`index, memory
      ensures memory[..] == StoreRegsMem(old(memory[..]), old(index), v[..], x + 1)
      ensures index == IndexAfterBulk(old(index), x, quirks)
    {
      if quirks.incrementIndex {
        var r := 0;
        while r <= x
          invariant 0 <= r <= x + 1
          invariant index == old(index) + r
          invariant memory[..] == StoreRegsMem(old(memory[..]), old(index), v[..], r)
        {
          if index < memory.Length { memory[index] := v[r]; }
          index := index + 1;
          r := r + 1;
        }
      } else {
        var r := 0;
        while r <= x
          invariant 0 <= r <= x + 1
          invariant index == old(index)
          invariant memory[..] == StoreRegsMem(old(memory[..]), index, v[..], r)
        {
          if index + r < memory.Length { memory[index + r] := v[r]; }
          r := r + 1;
        }
      }
    }

    /** Fx65: V0 .. Vx from memory from I on, moving I along under incrementIndex. */
    method LoadRegisters(x: nibble)
      requires Valid()
      modifies this`index, v
      ensures v[..] == LoadRegsV(memory[..], old(index), old(v[..]), x + 1)
      ensures index == IndexAfterBulk(old(index), x, quirks)
    {
      if quirks.incrementIndex {
        var r := 0;
        while r <= x
          invariant 0 <= r <= x + 1
          invariant index == old(index) + r
          invariant v[..] == LoadRegsV(memory[..], old(index), old(v[..]), r)
        {
          v[r] := if index < memory.Length then memory[index] else 0;
          index := index + 1;
          r := r + 1;
        }
      } else {
        var r := 0;
        while r <= x
          invariant 0 <= r <= x + 1
          invariant index == old(index)
          invariant v[..] == LoadRegsV(memory[..], index, old(v[..]), r)
        {
          v[r] := if index + r < memory.Length then memory[index + r] else 0;
          r := r + 1;
        }
      }
    }

    /** updateTimers. */
    method UpdateTimers()
      requires Valid()
      modifies this`dt, this`st
      ensures Model() == Tick(old(Model()))
    {
      if dt > 0 { dt := dt - 1; }
      if st > 0 { st := st - 1; }
    }

    /** cycle: SPEED passes that each execute one instruction unless paused, then
        the timers unless paused. The random bytes are the ones Cxkk would draw in
        each pass. */
    method Cycle(keys: set<byte>, rnds: seq<RandomByte>)
      requires Valid() && |rnds| == SPEED && CanRun(Model(), quirks, keys, rnds)
      modifies this, memory, v, pixels
      ensures Valid() && Model() == Semantics.Cycle(old(Model()), quirks, keys, rnds)
    {
      var k := 0;
      while k < SPEED
        invariant 0 <= k <= SPEED && Valid()
        invariant CanRun(Model(), quirks, keys, rnds[k..])
        invariant Run(old(Model()), quirks, keys, rnds) == Run(Model(), quirks, keys, rnds[k..])
      {
        assert rnds[k..][1..] == rnds[k + 1..];
        if !paused {
          Step(keys, rnds[k]);
        }
        k := k + 1;
      }
      if !paused {
        UpdateTimers();
      }
    }

    /** The key-wait continuation installed by Fx0A, as an explicit entry point. */
    method DeliverKey(key: byte)
      requires Valid()
      modifies this`paused, v
      ensures Model() == Semantics.DeliverKey(old(Model()), key)
    {
      if paused {
        v[keyTarget] := key;
        paused := false;
      }
    }
  }
}
