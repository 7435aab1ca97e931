/** What the interpreter's definitions guarantee: the effect of each instruction
    form in closed form, the round trips between instructions, and the behaviour
    of the timers, the key wait and the frame buffer over several steps. */
module Properties {
  import opened Bytes
  import opened Opcodes
  import opened Semantics
  import Display

  // ---------------------------------------------------------------- fetch and flow

  /** The conditions under which the six skip forms skip, read independently of Exec. */
  predicate SkipTaken(s: State, ins: Instr, keys: set<byte>)
    requires Valid(s)
  {
    match ins
    case SkipEqByte(x, kk) => s.v[x] == kk
    case SkipNeByte(x, kk) => s.v[x] != kk
    case SkipEqReg(x, y, _) => s.v[x] == s.v[y]
    case SkipNeReg(x, y, _) => s.v[x] != s.v[y]
    case SkipKey(x) => s.v[x] in keys
    case SkipNoKey(x) => s.v[x] !in keys
    case _ => false
  }

  /** A skip form moves PC past itself, and past the next instruction exactly when
      its condition holds; nothing else changes. */
  lemma StepSkip(s: State, ins: Instr, q: Quirks, keys: set<byte>, rnd: RandomByte)
    requires ins.SkipEqByte? || ins.SkipNeByte? || ins.SkipEqReg? || ins.SkipNeReg?
          || ins.SkipKey? || ins.SkipNoKey?
    requires Valid(s) && Fetch(s.mem, s.pc) == Encode(ins)
    ensures CanStep(s)
    ensures Step(s, q, keys, rnd) == s.(pc := s.pc + if SkipTaken(s, ins, keys) then 4 else 2)
  {
    DecodeEncode(ins);
  }

  /** 1nnn sets PC to nnn and Bnnn to V0 + nnn. */
  lemma StepJump(s: State, a: address, q: Quirks, keys: set<byte>, rnd: RandomByte)
    requires Valid(s)
    ensures Fetch(s.mem, s.pc) == Encode(Jump(a)) ==>
      CanStep(s) && Step(s, q, keys, rnd) == s.(pc := a)
    ensures Fetch(s.mem, s.pc) == Encode(JumpV0(a)) ==>
      CanStep(s) && Step(s, q, keys, rnd) == s.(pc := s.v[0] + a)
  {
    DecodeEncode(Jump(a));
    DecodeEncode(JumpV0(a));
  }

  /** A word no case handles only moves PC past itself. */
  lemma StepIgnored(s: State, q: Quirks, keys: set<byte>, rnd: RandomByte)
    requires Valid(s) && Decode(Fetch(s.mem, s.pc)).Ignored?
    ensures CanStep(s) && Step(s, q, keys, rnd) == s.(pc := s.pc + 2)
  {
  }

  /** A PC past the end of memory fetches the word 0x0000, which no case handles,
      so execution slides on two bytes at a time. */
  lemma StepPastEnd(s: State, q: Quirks, keys: set<byte>, rnd: RandomByte)
    requires Valid(s) && s.pc >= MEMORY_SIZE
    ensures Fetch(s.mem, s.pc) == 0 && Decode(0) == Ignored(0)
    ensures CanStep(s) && Step(s, q, keys, rnd) == s.(pc := s.pc + 2)
  {
    var op := Fetch(s.mem, s.pc);
    assert op / 0x100 == 0 && op % 0x100 == 0;
  }

  /** 2nnn followed by a 00EE at nnn comes back to the instruction after the call
      with the stack as it was. */
  lemma CallThenReturn(s: State, a: address, q: Quirks, keys: set<byte>, rnd: RandomByte, rnd': RandomByte)
    requires Valid(s)
    requires Fetch(s.mem, s.pc) == Encode(Call(a)) && Fetch(s.mem, a) == Encode(Ret)
    ensures CanStep(s)
    ensures Step(s, q, keys, rnd) == s.(pc := a, stack := s.stack + [s.pc + 2])
    ensures CanStep(Step(s, q, keys, rnd))
    ensures Step(Step(s, q, keys, rnd), q, keys, rnd') == s.(pc := s.pc + 2)
  {
    DecodeEncode(Call(a));
    DecodeEncode(Ret);
    var t := Step(s, q, keys, rnd);
    assert t.mem == s.mem;
    assert (s.stack + [s.pc + 2])[..|s.stack|] == s.stack;
  }

  // ---------------------------------------------------------------- registers and I

  /** 6xkk writes kk into Vx and nothing else. */
  lemma StepLoadByte(s: State, x: nibble, kk: byte, q: Quirks, keys: set<byte>, rnd: RandomByte)
    requires Valid(s) && Fetch(s.mem, s.pc) == Encode(LoadByte(x, kk))
    ensures CanStep(s)
    ensures Step(s, q, keys, rnd).v[x] == kk
    ensures Step(s, q, keys, rnd) == s.(pc := s.pc + 2, v := s.v[x := kk])
  {
    DecodeEncode(LoadByte(x, kk));
  }

  /** 7xkk adds modulo 256 and leaves VF alone unless x is F. */
  lemma StepAddByte(s: State, x: nibble, kk: byte, q: Quirks, keys: set<byte>, rnd: RandomByte)
    requires Valid(s) && Fetch(s.mem, s.pc) == Encode(AddByte(x, kk))
    ensures CanStep(s)
    ensures Step(s, q, keys, rnd).v[x] == (s.v[x] + kk) % 256
    ensures x != FLAG ==> Step(s, q, keys, rnd).v[FLAG] == s.v[FLAG]
    ensures forall i :: 0 <= i < REGISTERS && i != x ==> Step(s, q, keys, rnd).v[i] == s.v[i]
    ensures Step(s, q, keys, rnd) == s.(pc := s.pc + 2, v := Step(s, q, keys, rnd).v)
  {
    DecodeEncode(AddByte(x, kk));
  }

  /** Cxkk writes the random byte masked by kk. */
  lemma StepRandom(s: State, x: nibble, kk: byte, q: Quirks, keys: set<byte>, rnd: RandomByte)
    requires Valid(s) && Fetch(s.mem, s.pc) == Encode(Random(x, kk))
    ensures CanStep(s)
    ensures Step(s, q, keys, rnd) == s.(pc := s.pc + 2, v := s.v[x := BitAnd(rnd, kk)])
  {
    DecodeEncode(Random(x, kk));
  }

  /** Annn loads I. */
  lemma StepLoadIndex(s: State, a: address, q: Quirks, keys: set<byte>, rnd: RandomByte)
    requires Valid(s) && Fetch(s.mem, s.pc) == Encode(LoadIndex(a))
    ensures CanStep(s) && Step(s, q, keys, rnd) == s.(pc := s.pc + 2, index := a)
  {
    DecodeEncode(LoadIndex(a));
  }

  /** Fx1E adds Vx to I without masking the sum to 12 bits. */
  lemma StepAddIndex(s: State, x: nibble, q: Quirks, keys: set<byte>, rnd: RandomByte)
    requires Valid(s) && Fetch(s.mem, s.pc) == Encode(AddIndex(x))
    ensures CanStep(s) && Step(s, q, keys, rnd) == s.(pc := s.pc + 2, index := s.index + s.v[x])
  {
    DecodeEncode(AddIndex(x));
  }

  /** Fx29 points I at five bytes per digit, at 5 * Vx. */
  lemma StepLoadFont(s: State, x: nibble, q: Quirks, keys: set<byte>, rnd: RandomByte)
    requires Valid(s) && Fetch(s.mem, s.pc) == Encode(LoadFont(x))
    ensures CanStep(s) && Step(s, q, keys, rnd) == s.(pc := s.pc + 2, index := 5 * (s.v[x] as int))
  {
    DecodeEncode(LoadFont(x));
  }

  /** Fx07 copies DT into Vx. */
  lemma StepLoadDelay(s: State, x: nibble, q: Quirks, keys: set<byte>, rnd: RandomByte)
    requires Valid(s) && Fetch(s.mem, s.pc) == Encode(LoadDelay(x))
    ensures CanStep(s) && Step(s, q, keys, rnd) == s.(pc := s.pc + 2, v := s.v[x := s.dt])
  {
    DecodeEncode(LoadDelay(x));
  }

  /** Fx15 copies Vx into DT. */
  lemma StepSetDelay(s: State, x: nibble, q: Quirks, keys: set<byte>, rnd: RandomByte)
    requires Valid(s) && Fetch(s.mem, s.pc) == Encode(SetDelay(x))
    ensures CanStep(s) && Step(s, q, keys, rnd) == s.(pc := s.pc + 2, dt := s.v[x])
  {
    DecodeEncode(SetDelay(x));
  }

  /** Fx18 copies Vx into ST. */
  lemma StepSetSound(s: State, x: nibble, q: Quirks, keys: set<byte>, rnd: RandomByte)
    requires Valid(s) && Fetch(s.mem, s.pc) == Encode(SetSound(x))
    ensures CanStep(s) && Step(s, q, keys, rnd) == s.(pc := s.pc + 2, st := s.v[x])
  {
    DecodeEncode(SetSound(x));
  }

  /** Memory still holds the font where the constructor put it. */
  predicate FontIntact(mem: seq<byte>)
  {
    |FONT| <= |mem| && mem[..|FONT|] == FONT
  }

  /** While the font is intact, the five bytes at 5 * d are the glyph of digit d,
      which is where Fx29 points I. */
  lemma FontGlyph(mem: seq<byte>, d: nat)
    requires FontIntact(mem) && d < 16
    ensures 5 * d + 5 <= |FONT| && mem[5 * d .. 5 * d + 5] == FONT[5 * d .. 5 * d + 5]
  {
    assert mem[5 * d .. 5 * d + 5] == mem[..|FONT|][5 * d .. 5 * d + 5];
  }

  /** Fx29 on a hexadecimal digit d, with the font intact, points I at the glyph of
      d: the five bytes a following Dxyn reads from I are FONT's rows for d. */
  lemma StepFontGlyph(s: State, x: nibble, q: Quirks, keys: set<byte>, rnd: RandomByte)
    requires Valid(s) && FontIntact(s.mem) && s.v[x] < 16
    requires Fetch(s.mem, s.pc) == Encode(LoadFont(x))
    ensures CanStep(s)
    ensures var t := Step(s, q, keys, rnd);
      t.index + 5 <= |t.mem| &&
      t.mem[t.index .. t.index + 5] == FONT[5 * s.v[x] .. 5 * s.v[x] + 5]
  {
    StepLoadFont(s, x, q, keys, rnd);
    FontGlyph(s.mem, s.v[x]);
  }

  /** The constructor's memory holds the font. */
  lemma InitialFont()
    ensures FontIntact(Initial().mem)
  {
  }

  // ---------------------------------------------------------------- the 8xyN forms

  /** 8xy4: for distinct registers Vx holds the sum modulo 256 and VF the carry; the
      carry is written last, so for x = F the flag wins; with x = y the test after
      the write compares a register with itself and VF ends at 0. */
  lemma AluAdd(v: seq<byte>, x: nibble, y: nibble, q: Quirks)
    requires |v| == REGISTERS
    ensures var r := AluResult(v, x, y, Add, q);
      (x != y && x != FLAG ==> r[x] == (v[x] as int + v[y]) % 256) &&
      (x != y ==> r[FLAG] == if v[x] as int + v[y] > 255 then 1 else 0) &&
      (x == y ==> r[FLAG] == 0)
  {
    var w := v[x := (v[x] as int + v[y]) % 256];
    if x != y {
      assert w[y] == v[y];
      assert w[x] < w[y] <==> v[x] as int + v[y] > 255;
    }
  }

  /** 8xy5: Vx - Vy modulo 256, VF = 1 exactly when no borrow, i.e. Vx >= Vy. */
  lemma AluSub(v: seq<byte>, x: nibble, y: nibble, q: Quirks)
    requires |v| == REGISTERS
    ensures var r := AluResult(v, x, y, Sub, q);
      (x != FLAG ==> r[x] == (v[x] as int - v[y]) % 256) &&
      r[FLAG] == if v[x] >= v[y] then 1 else 0
  {
    var w := v[x := (v[x] as int - v[y]) % 256];
    if x != y {
      assert w[y] == v[y];
      assert (w[x] as int + w[y]) % 256 == v[x];
    }
  }

  /** 8xy7: Vy - Vx modulo 256, VF = 1 exactly when Vy >= the old Vx. */
  lemma AluSubN(v: seq<byte>, x: nibble, y: nibble, q: Quirks)
    requires |v| == REGISTERS
    ensures var r := AluResult(v, x, y, SubN, q);
      (x != FLAG ==> r[x] == (v[y] as int - v[x]) % 256) &&
      r[FLAG] == if v[y] >= v[x] then 1 else 0
  {
    var w := v[x := (v[y] as int - v[x]) % 256];
    if x != y {
      assert w[y] == v[y];
      assert w[x] > w[y] <==> v[y] < v[x];
    }
  }

  /** 8xy0 copies Vy into Vx. */
  lemma AluMove(v: seq<byte>, x: nibble, y: nibble, q: Quirks)
    requires |v| == REGISTERS
    ensures AluResult(v, x, y, Mov, q)[x] == v[y]
    ensures forall i :: 0 <= i < REGISTERS && i != x ==> AluResult(v, x, y, Mov, q)[i] == v[i]
  {
  }

  /** 8xy1, 8xy2, 8xy3: the bitwise result in Vx, then VF = 0 regardless. */
  lemma AluLogic(v: seq<byte>, x: nibble, y: nibble, q: Quirks)
    requires |v| == REGISTERS
    ensures AluResult(v, x, y, Or, q)[FLAG] == 0
    ensures AluResult(v, x, y, And, q)[FLAG] == 0
    ensures AluResult(v, x, y, Xor, q)[FLAG] == 0
    ensures x != FLAG ==> AluResult(v, x, y, Or, q)[x] == BitOr(v[x], v[y])
    ensures x != FLAG ==> AluResult(v, x, y, And, q)[x] == BitAnd(v[x], v[y])
    ensures x != FLAG ==> AluResult(v, x, y, Xor, q)[x] == BitXor(v[x], v[y])
  {
  }

  /** 8xy6 and 8xyE shift Vy (originalShiftBehavior) or Vx (otherwise) by one bit
      and put the bit shifted out in VF. */
  lemma AluShift(v: seq<byte>, x: nibble, y: nibble, q: Quirks)
    requires |v| == REGISTERS
    ensures var src := if q.originalShiftBehavior then v[y] else v[x];
      (x != FLAG ==> AluResult(v, x, y, Shr, q)[x] == src / 2) &&
      AluResult(v, x, y, Shr, q)[FLAG] == src % 2 &&
      (x != FLAG ==> AluResult(v, x, y, Shl, q)[x] == (src as int * 2) % 256) &&
      AluResult(v, x, y, Shl, q)[FLAG] == src / 128
  {
  }

  /** The example of 0x80 >> 1 against 0x01 >> 1 with the shift quirk off and on. */
  lemma ShiftQuirkExample(v: seq<byte>, x: nibble, y: nibble)
    requires |v| == REGISTERS && x != y && x != FLAG && v[x] == 0x80 && v[y] == 0x01
    ensures AluResult(v, x, y, Shr, Quirks(false, false))[x] == 0x40
    ensures AluResult(v, x, y, Shr, Quirks(false, false))[FLAG] == 0
    ensures AluResult(v, x, y, Shr, Quirks(true, false))[x] == 0x00
    ensures AluResult(v, x, y, Shr, Quirks(true, false))[FLAG] == 1
  {
    AluShift(v, x, y, Quirks(false, false));
    AluShift(v, x, y, Quirks(true, false));
  }

  // ---------------------------------------------------------------- bulk store and load

  /** Fx55 stores V0 .. V(k-1) at index .. index + k - 1 (those inside memory) and
      touches no other address. */
  lemma {:induction false} StoreRegsMemAt(mem: seq<byte>, index: nat, v: seq<byte>, k: nat)
    requires k <= |v|
    ensures forall a :: 0 <= a < |mem| ==>
      StoreRegsMem(mem, index, v, k)[a] == if index <= a < index + k then v[a - index] else mem[a]
  {
    if k > 0 {
      StoreRegsMemAt(mem, index, v, k - 1);
    }
  }

  /** Fx65 loads V0 .. V(k-1) from index .. index + k - 1 and touches no other register. */
  lemma {:induction false} LoadRegsVAt(mem: seq<byte>, index: nat, v: seq<byte>, k: nat)
    requires k <= |v|
    ensures forall i :: 0 <= i < |v| ==>
      LoadRegsV(mem, index, v, k)[i] == if i < k then Peek(mem, index + i) else v[i]
  {
    if k > 0 {
      LoadRegsVAt(mem, index, v, k - 1);
    }
  }

  /** Fx55 then, from the same I, Fx65 gives back V0 .. Vx whatever happened to the
      registers in between; registers above x keep their values; I moves to
      I + x + 1 under incrementIndex and stays otherwise. */
  lemma StoreThenLoad(s: State, t: State, x: nibble, q: Quirks, keys: set<byte>, rnd: RandomByte)
    requires Valid(s) && Valid(t) && s.index + x < MEMORY_SIZE
    requires t.mem == Exec(s, StoreRegs(x), q, keys, rnd).mem && t.index == s.index
    ensures Exec(s, StoreRegs(x), q, keys, rnd).index == IndexAfterBulk(s.index, x, q)
    ensures var u := Exec(t, LoadRegs(x), q, keys, rnd);
      (forall i :: 0 <= i <= x ==> u.v[i] == s.v[i]) &&
      (forall i :: x < i < REGISTERS ==> u.v[i] == t.v[i]) &&
      u.mem == t.mem && u.index == IndexAfterBulk(s.index, x, q)
  {
    StoreRegsMemAt(s.mem, s.index, s.v, x + 1);
    LoadRegsVAt(t.mem, t.index, t.v, x + 1);
  }

  /** Fx33: three decimal digits that make up Vx, stored at I, I + 1, I + 2. */
  lemma StoreBcdAt(mem: seq<byte>, index: nat, b: byte)
    requires index + 2 < |mem|
    ensures var r := StoreBcdMem(mem, index, b);
      r[index] < 10 && r[index + 1] < 10 && r[index + 2] < 10 &&
      100 * r[index] + 10 * r[index + 1] + r[index + 2] == b &&
      forall a :: 0 <= a < |mem| && !(index <= a <= index + 2) ==> r[a] == mem[a]
  {
    var h, t, o := b / 100, (b % 100) / 10, b % 10;
    assert 100 * h + (b % 100) == b;
    assert 10 * t + o == b % 100;
  }

  // ---------------------------------------------------------------- program image

  /** loadProgramIntoRAM puts byte k at 0x200 + k (where that is inside memory) and
      leaves every other address alone; in particular the font survives it. */
  lemma {:induction false} LoadImageAt(mem: seq<byte>, program: seq<byte>)
    ensures forall a :: 0 <= a < |mem| ==>
      LoadImage(mem, program)[a] ==
        if PROGRAM_START <= a < PROGRAM_START + |program| then program[a - PROGRAM_START] else mem[a]
    decreases |program|
  {
    if program != [] {
      var k := |program| - 1;
      LoadImageAt(mem, program[..k]);
    }
  }

  lemma LoadImageKeepsFont(mem: seq<byte>, program: seq<byte>)
    requires FontIntact(mem)
    ensures FontIntact(LoadImage(mem, program))
  {
    LoadImageAt(mem, program);
    var r := LoadImage(mem, program);
    assert forall a :: 0 <= a < |FONT| ==> r[..|FONT|][a] == FONT[a];
  }

  // ---------------------------------------------------------------- timers and the key wait

  function Ticks(s: State, k: nat): (r: State)
    requires Valid(s)
    ensures Valid(r)
  {
    if k == 0 then s else Tick(Ticks(s, k - 1))
  }

  /** k calls of updateTimers bring each timer down by k, stopping at 0. */
  lemma {:induction false} TicksFloor(s: State, k: nat)
    requires Valid(s)
    ensures Ticks(s, k).dt == if s.dt >= k then s.dt - k else 0
    ensures Ticks(s, k).st == if s.st >= k then s.st - k else 0
    ensures Ticks(s, k) == s.(dt := Ticks(s, k).dt, st := Ticks(s, k).st)
  {
    if k > 0 {
      TicksFloor(s, k - 1);
    }
  }

  /** While paused, the passes of cycle do nothing. */
  lemma {:induction false} RunPaused(s: State, q: Quirks, keys: set<byte>, rnds: seq<RandomByte>)
    requires Valid(s) && s.paused
    ensures CanRun(s, q, keys, rnds) && Run(s, q, keys, rnds) == s
    decreases |rnds|
  {
    if rnds != [] {
      RunPaused(s, q, keys, rnds[1..]);
    }
  }

  /** A cycle of a paused machine executes nothing and does not touch the timers. */
  lemma CyclePaused(s: State, q: Quirks, keys: set<byte>, rnds: seq<RandomByte>)
    requires Valid(s) && s.paused
    ensures CanRun(s, q, keys, rnds) && Cycle(s, q, keys, rnds) == s
  {
    RunPaused(s, q, keys, rnds);
  }

  /** Fx0A pauses the machine on register x; it stays put through any cycle until
      a key arrives, which lands in Vx and resumes it. */
  lemma WaitKeyThenDeliver(s: State, x: nibble, key: byte, q: Quirks, keys: set<byte>,
                           rnd: RandomByte, rnds: seq<RandomByte>)
    requires Valid(s) && Fetch(s.mem, s.pc) == Encode(WaitKey(x))
    ensures CanStep(s)
    ensures var w := Step(s, q, keys, rnd);
      w == s.(pc := s.pc + 2, paused := true, keyTarget := x) &&
      CanRun(w, q, keys, rnds) && Cycle(w, q, keys, rnds) == w &&
      DeliverKey(w, key) == w.(v := w.v[x := key], paused := false)
  {
    DecodeEncode(WaitKey(x));
    CyclePaused(Step(s, q, keys, rnd), q, keys, rnds);
  }

  // ---------------------------------------------------------------- the frame buffer

  /** 00E0 twice is 00E0 once: a clear screen. */
  lemma ClearIdempotent(s: State, q: Quirks, keys: set<byte>, rnd: RandomByte)
    requires Valid(s)
    ensures Exec(Exec(s, Cls, q, keys, rnd), Cls, q, keys, rnd) == Exec(s, Cls, q, keys, rnd)
    ensures forall p :: 0 <= p < Display.SIZE ==> !Exec(s, Cls, q, keys, rnd).pixels[p]
  {
  }

  /** The slot that sprite bit (row, col) lands on when drawing from (sx, sy). */
  function SpriteCell(sx: int, sy: int, row: int, col: int): int
  {
    (sx + col) + (sy + row) * Display.COLS
  }

  /** Sprite bit (row, col) is set and falls on the screen. */
  predicate Lit(mem: seq<byte>, index: nat, sx: int, sy: int, row: nat, col: nat)
    requires col < 8
  {
    SpriteBit(Peek(mem, index + row), col) && sx + col < Display.COLS && sy + row < Display.ROWS
  }

  /** The slots toggled by the first r rows and c bits of row r, drawing from (sx, sy). */
  function Hits(mem: seq<byte>, index: nat, sx: int, sy: int, r: nat, c: nat): set<int>
    requires |mem| == MEMORY_SIZE && c <= 8
    decreases r, c
  {
    if c == 0 then
      if r == 0 then {} else Hits(mem, index, sx, sy, r - 1, 8)
    else
      Hits(mem, index, sx, sy, r, c - 1) +
      if Lit(mem, index, sx, sy, r, c - 1) then {SpriteCell(sx, sy, r, c - 1)} else {}
  }

  /** The slots are exactly those of the set bits that fall on the screen. */
  lemma {:induction false} HitsMembers(mem: seq<byte>, index: nat, sx: int, sy: int, r: nat, c: nat, p: int)
    requires |mem| == MEMORY_SIZE && c <= 8
    ensures p in Hits(mem, index, sx, sy, r, c) <==>
      exists row: nat, col: nat :: (row < r || (row == r && col < c)) && col < 8 &&
        Lit(mem, index, sx, sy, row, col) && p == SpriteCell(sx, sy, row, col)
    decreases r, c
  {
    if c == 0 {
      if r > 0 {
        HitsMembers(mem, index, sx, sy, r - 1, 8, p);
      }
    } else {
      HitsMembers(mem, index, sx, sy, r, c - 1, p);
    }
  }

  /** Every slot the sprite hits is on the screen and comes before the cell of
      the next bit to be drawn. */
  lemma {:induction false} HitsBound(mem: seq<byte>, index: nat, sx: nat, sy: nat, r: nat, c: nat)
    requires |mem| == MEMORY_SIZE && c <= 8
    ensures forall p :: p in Hits(mem, index, sx, sy, r, c) ==>
      0 <= p < Display.SIZE && p < SpriteCell(sx, sy, r, c)
    decreases r, c
  {
    if c == 0 {
      if r > 0 {
        HitsBound(mem, index, sx, sy, r - 1, 8);
      }
    } else {
      HitsBound(mem, index, sx, sy, r, c - 1);
      if Lit(mem, index, sx, sy, r, c - 1) {
        Display.PixelIndexOnScreen(sx + c - 1, sy + r);
      }
    }
  }

  /** Some slot in `hits` is lit. */
  predicate Collides(pixels: seq<bool>, hits: set<int>)
  {
    exists p :: 0 <= p < |pixels| && p in hits && pixels[p]
  }

  lemma CollidesAdd(pixels: seq<bool>, hits: set<int>, q: int)
    ensures Collides(pixels, hits + {q}) <==> Collides(pixels, hits) || (0 <= q < |pixels| && pixels[q])
  {
    if Collides(pixels, hits + {q}) {
      var p :| 0 <= p < |pixels| && p in hits + {q} && pixels[p];
      if p != q {
        assert p in hits;
      }
    }
  }

  /** `t` is `s` with exactly the slots in `hits` flipped, and VF set to 1 when one
      of them was lit in `s`. */
  predicate ToggledBy(s: State, t: State, hits: set<int>)
    requires Valid(s) && Valid(t)
  {
    (forall p :: 0 <= p < Display.SIZE ==> t.pixels[p] == (s.pixels[p] != (p in hits))) &&
    t.v == s.v[FLAG := if Collides(s.pixels, hits) then 1 else s.v[FLAG]]
  }

  /** The loops of Dxyn, when neither coordinate register is VF: each slot is
      toggled once if the sprite hits it and never otherwise, and VF ends at 1
      exactly when a hit slot was lit before. */
  lemma {:induction false} DrawPrefixEffect(s: State, x: nibble, y: nibble, r: nat, c: nat)
    requires Valid(s) && c <= 8 && x != FLAG && y != FLAG
    ensures ToggledBy(s, DrawPrefix(s, x, y, r, c), Hits(s.mem, s.index, s.v[x], s.v[y], r, c))
    decreases r, c
  {
    if c == 0 {
      if r > 0 {
        DrawPrefixEffect(s, x, y, r - 1, 8);
        assert DrawPrefix(s, x, y, r, 0) == DrawPrefix(s, x, y, r - 1, 8);
        assert Hits(s.mem, s.index, s.v[x], s.v[y], r, 0) == Hits(s.mem, s.index, s.v[x], s.v[y], r - 1, 8);
      } else {
        ToggledByNothing(s);
      }
    } else {
      DrawPrefixEffect(s, x, y, r, c - 1);
      DrawPixelEffect(s, x, y, r, c);
    }
  }

  lemma ToggledByNothing(s: State)
    requires Valid(s)
    ensures ToggledBy(s, s, {})
  {
    assert s.v[FLAG := s.v[FLAG]] == s.v;
  }

  /** One pass of the inner loop: a lit bit on the screen flips its slot, and
      sets VF when that slot was lit; any other bit changes nothing. */
  lemma DrawPixelAt(b: State, x: nibble, y: nibble, row: nat, col: nat)
    requires Valid(b) && col < 8
    ensures var t := DrawPixel(b, x, y, row, col);
      var q := SpriteCell(b.v[x], b.v[y], row, col);
      if Lit(b.mem, b.index, b.v[x], b.v[y], row, col) then
        0 <= q < Display.SIZE &&
        (forall p :: 0 <= p < Display.SIZE ==> t.pixels[p] == (b.pixels[p] != (p == q))) &&
        t.v == (if b.pixels[q] then b.v[FLAG := 1] else b.v)
      else t == b
  {
    if Lit(b.mem, b.index, b.v[x], b.v[y], row, col) {
      Display.PixelIndexOnScreen(b.v[x] + col, b.v[y] + row);
    }
  }

  /** The step from c - 1 bits of row r to c bits, given the effect of the first. */
  lemma DrawPixelEffect(s: State, x: nibble, y: nibble, r: nat, c: nat)
    requires Valid(s) && 0 < c <= 8 && x != FLAG && y != FLAG
    requires ToggledBy(s, DrawPrefix(s, x, y, r, c - 1), Hits(s.mem, s.index, s.v[x], s.v[y], r, c - 1))
    ensures ToggledBy(s, DrawPrefix(s, x, y, r, c), Hits(s.mem, s.index, s.v[x], s.v[y], r, c))
  {
    var before := DrawPrefix(s, x, y, r, c - 1);
    var sx, sy := s.v[x], s.v[y];
    assert before.v[x] == sx && before.v[y] == sy;
    var hits := Hits(s.mem, s.index, sx, sy, r, c - 1);
    DrawPixelAt(before, x, y, r, c - 1);
    if Lit(s.mem, s.index, sx, sy, r, c - 1) {
      var q := SpriteCell(sx, sy, r, c - 1);
      HitsBound(s.mem, s.index, sx, sy, r, c - 1);
      ToggleOne(s, before, DrawPrefix(s, x, y, r, c), hits, q);
    }
  }

  /** Flipping one more slot, outside the ones flipped so far, extends the effect. */
  lemma ToggleOne(s: State, before: State, t: State, hits: set<int>, q: int)
    requires Valid(s) && Valid(before) && Valid(t) && ToggledBy(s, before, hits)
    requires 0 <= q < Display.SIZE && q !in hits
    requires forall p :: 0 <= p < Display.SIZE ==> t.pixels[p] == (before.pixels[p] != (p == q))
    requires t.v == (if before.pixels[q] then before.v[FLAG := 1] else before.v)
    ensures ToggledBy(s, t, hits + {q})
  {
    assert before.pixels[q] == s.pixels[q];
    CollidesAdd(s.pixels, hits, q);
  }

  /** The slots Dxyn toggles. */
  function SpriteCells(s: State, x: nibble, y: nibble, n: nibble): set<int>
    requires Valid(s)
  {
    var t := DrawSetup(s, x, y);
    Hits(s.mem, s.index, t.v[x], t.v[y], n, 0)
  }

  /** Dxyn with x, y other than F: the start is wrapped in Vx and Vy, exactly the
      hit slots flip, VF is 1 exactly when one of them was lit, and no other
      register changes. */
  lemma DrawSpriteEffect(s: State, x: nibble, y: nibble, n: nibble)
    requires Valid(s) && x != FLAG && y != FLAG
    ensures var r := DrawSprite(s, x, y, n);
      var hits := SpriteCells(s, x, y, n);
      (x != y ==> r.v[x] == WrapStart(s.v[x], Display.COLS) && r.v[y] == WrapStart(s.v[y], Display.ROWS)) &&
      (x == y ==> r.v[x] == WrapStart(WrapStart(s.v[x], Display.COLS), Display.ROWS)) &&
      r.v[x] <= Display.COLS && r.v[y] <= Display.ROWS &&
      (forall i :: 0 <= i < REGISTERS && i != x && i != y && i != FLAG ==> r.v[i] == s.v[i]) &&
      (forall p :: 0 <= p < Display.SIZE ==> r.pixels[p] == (s.pixels[p] != (p in hits))) &&
      r.v[FLAG] == if Collides(s.pixels, hits) then 1 else 0
  {
    DrawPrefixEffect(DrawSetup(s, x, y), x, y, n, 0);
  }

  /** Drawing the same sprite twice from the same place restores the frame buffer. */
  lemma DrawTwice(s: State, x: nibble, y: nibble, n: nibble)
    requires Valid(s) && x != FLAG && y != FLAG
    ensures DrawSprite(DrawSprite(s, x, y, n), x, y, n).pixels == s.pixels
    ensures SpriteCells(DrawSprite(s, x, y, n), x, y, n) == SpriteCells(s, x, y, n)
  {
    var t := DrawSprite(s, x, y, n);
    DrawSpriteEffect(s, x, y, n);
    DrawSpriteEffect(t, x, y, n);
    assert DrawSetup(t, x, y).v[x] == DrawSetup(s, x, y).v[x];
    assert DrawSetup(t, x, y).v[y] == DrawSetup(s, x, y).v[y];
    var u := DrawSprite(t, x, y, n);
    assert forall p :: 0 <= p < Display.SIZE ==> u.pixels[p] == s.pixels[p];
  }

  /** On a blank screen the second of two identical draws reports a collision
      exactly when the sprite put anything on the screen. */
  lemma DrawTwiceCollides(s: State, x: nibble, y: nibble, n: nibble)
    requires Valid(s) && x != FLAG && y != FLAG
    requires forall p :: 0 <= p < Display.SIZE ==> !s.pixels[p]
    ensures DrawSprite(DrawSprite(s, x, y, n), x, y, n).v[FLAG] == 1 <==> SpriteCells(s, x, y, n) != {}
  {
    var t := DrawSprite(s, x, y, n);
    var hits := SpriteCells(s, x, y, n);
    DrawTwice(s, x, y, n);
    DrawSpriteEffect(s, x, y, n);
    DrawSpriteEffect(t, x, y, n);
    var start := DrawSetup(s, x, y);
    HitsBound(s.mem, s.index, start.v[x], start.v[y], n, 0);
    if p :| p in hits {
      assert t.pixels[p];
      assert Collides(t.pixels, hits);
    }
  }
}
