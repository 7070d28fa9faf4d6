/** The Shox96 decompressor.

    Mode is what the loop of the source carries from turn to turn; Step is one turn, with
    the same branches in the same order.  A turn either goes on, or stops at an
    incomplete code, or would touch memory that is not there (Wild): a read past the end
    of the input, a repeat of the last byte of an empty output, a copy from before the
    output or over itself, or the missing dictionary of previous lines. */
module ShoxDecoder {
  import opened Bitwise
  import opened ShoxTables
  import opened ShoxBits

  const NO_CODE: nat := 199

  datatype Mode = Mode(pos: nat, dset: nat, upper: bool, out: string)

  datatype Turn = Next(mode: Mode) | Stop | Wild

  /** What a turn keeps, whatever the input: it reads on from bit p, stays in one of the
      two sets, and only ever adds to the output. */
  predicate Onward(m: Mode, p: nat, t: Turn) {
    t.Next? ==> p <= t.mode.pos && InSet(t.mode) && m.out <= t.mode.out
  }

  predicate InSet(m: Mode) {
    m.dset == SET1 || m.dset == SET2
  }

  datatype Outcome = Text(out: string) | WildAccess

  /** getCodeIdx, from the code and count reached so far: index and next bit. */
  function CodeFrom(table: seq<nat>, bits: seq<bool>, p: nat, code: nat, count: nat): (r: (nat, nat))
    requires |table| == 32 && count < 5 && code < Shl(1, count)
    ensures p <= r.1 && (r.0 != NO_CODE ==> p < r.1 <= |bits|)
    decreases |bits| - p
  {
    if p >= |bits| then (NO_CODE, p)
    else
      var weight := WeightBound(count);
      var code' := code + if bits[p] then weight else 0;
      if table[code'] != 0 && table[code'] % 8 == count + 1 then (table[code'] / 8, p + 1)
      else if count + 1 < 5 then CodeFrom(table, bits, p + 1, code', count + 1)
      else (1, p + 1)
  }

  function WeightBound(count: nat): (weight: nat)
    requires count < 5
    ensures weight == Shl(1, count) && Shl(1, count + 1) == 2 * weight <= 32
  {
    assert Shl(1, 0) == 1 && Shl(1, 1) == 2 && Shl(1, 2) == 4 && Shl(1, 3) == 8 && Shl(1, 4) == 16 && Shl(1, 5) == 32;
    Shl(1, count)
  }

  function Code(table: seq<nat>, bits: seq<bool>, p: nat): (r: (nat, nat))
    requires |table| == 32
    ensures p <= r.1 && (r.0 != NO_CODE ==> p < r.1 <= |bits|)
  {
    CodeFrom(table, bits, p, 0, 0)
  }

  /** getNumFromBits. */
  function Num(bits: seq<bool>, p: nat, n: nat): nat
    requires p + n <= |bits|
    decreases n
  {
    if n == 0 then 0
    else (if bits[p] then Shl(1, n - 1) else 0) + Num(bits, p + 1, n - 1)
  }

  datatype Count = Count(value: nat, pos: nat) | Overrun

  /** readCount. */
  function ReadCount(bits: seq<bool>, p: nat): (r: Count)
    ensures r.Count? ==> p <= r.pos
  {
    var (idx, q) := Code(HCODE, bits, p);
    if idx > 6 then Count(0, q)
    else if q + READ_BITS[idx] > |bits| then Overrun
    else Count(Num(bits, q, READ_BITS[idx]) + READ_BASE[idx], q + READ_BITS[idx])
  }

  function Repeat(c: char, n: nat): (s: string)
    ensures |s| == n && forall i | 0 <= i < n :: s[i] == c
  {
    seq(n, _ => c)
  }

  function Lower(c: char): bool { 'a' <= c <= 'z' }

  /** The part of a turn after the code of the character is complete. */
  function Emit(bits: seq<bool>, m: Mode, p: nat, h: nat, v: nat, upper: bool): (t: Turn)
    requires h < 7 && v < 11 && InSet(m)
    ensures Onward(m, p, t)
  {
    var c := SETS[h][v];
    if Lower(c) then Next(m.(pos := p, out := m.out + [if upper then c - 32 as char else c]))
    else if h == SET1B && v == 6 then Next(m.(pos := p, out := m.out + "\r\n"))
    else if h == SET1B && v == 7 then Next(m.(pos := p, out := m.out + [if upper then '\r' else '\n']))
    else if h == SET1B && v == 8 then CopyBack(bits, m, p)
    else if h == SET1B && v == 9 then RepeatLast(bits, m, p)
    else if h == SET1B && v == 10 then Next(m.(pos := p))
    else Next(m.(pos := p, out := m.out + [if upper && m.dset == SET1 && v == 1 then '\t' else c]))
  }

  function CopyBack(bits: seq<bool>, m: Mode, p: nat): (t: Turn)
    requires InSet(m)
    ensures Onward(m, p, t)
  {
    if p >= |bits| || !bits[p] then Wild
    else
      match ReadCount(bits, p + 1)
      case Overrun => Wild
      case Count(n, q) =>
        match ReadCount(bits, q)
        case Overrun => Wild
        case Count(d, q2) => Copied(m, q2, n + NICE_LEN_FOR_PRIOR, d + NICE_LEN_FOR_PRIOR - 1)
  }

  function Copied(m: Mode, p: nat, dictLen: nat, dist: nat): Turn {
    if dist > |m.out| || dictLen > dist then Wild
    else
      var from := |m.out| - dist;
      Next(m.(pos := p, out := m.out + m.out[from..from + dictLen]))
  }

  function RepeatLast(bits: seq<bool>, m: Mode, p: nat): (t: Turn)
    requires InSet(m)
    ensures Onward(m, p, t)
  {
    match ReadCount(bits, p)
    case Overrun => Wild
    case Count(n, q) =>
      if m.out == "" then Wild
      else Next(m.(pos := q, out := m.out + Repeat(m.out[|m.out| - 1], n + 4)))
  }

  /** The codes at the start of a turn: an incomplete one, a change of mode with no
      character, or the place of a character in SETS and whether it is a capital. */
  datatype Head = Halt | Switch(mode: Mode) | Symbol(pos: nat, h: nat, v: nat, upper: bool)

  predicate GoodHead(m: Mode, p: nat, t: Head) {
    match t
    case Halt => true
    case Switch(m') => p <= m'.pos && InSet(m') && m'.out == m.out
    case Symbol(q, h, v, _) => p <= q && h < 7 && v < 11
  }

  /** One more vertical code completes the place of a character. */
  function Select(bits: seq<bool>, p: nat, h: nat, upper: bool): (t: Head)
    requires h < 7
    ensures t.Halt? || (t.Symbol? && p <= t.pos && t.h < 7 && t.v < 11)
  {
    var (v, q) := Code(VCODE, bits, p);
    if v == NO_CODE then Halt else InRange(VCODE, bits, p); Symbol(q, h, v, upper)
  }

  /** A set change inside the first set: the capitals toggle, or one capital follows. */
  function Capital(bits: seq<bool>, m: Mode, p: nat): (t: Head)
    requires InSet(m)
    ensures GoodHead(m, p, t)
  {
    if m.upper then Switch(m.(pos := p, upper := false))
    else
      var (v, q) := Code(VCODE, bits, p);
      if v == NO_CODE then Halt
      else if v != 0 then InRange(VCODE, bits, p); Symbol(q, SET1, v, true)
      else
        var (h, q2) := Code(HCODE, bits, q);
        if h == NO_CODE then Halt
        else if h == SET1 then Switch(m.(pos := q2, upper := true))
        else InRange(HCODE, bits, q); Select(bits, q2, h, true)
  }

  function ReadHead(bits: seq<bool>, m: Mode): (t: Head)
    requires InSet(m)
    ensures GoodHead(m, m.pos + 1, t)
  {
    var (v, p) := Code(VCODE, bits, m.pos);
    if v == NO_CODE then Halt
    else if v != 0 then InRange(VCODE, bits, m.pos); Symbol(p, m.dset, v, m.upper)
    else
      var (h, q) := Code(HCODE, bits, p);
      if h == NO_CODE then Halt
      else if h == SET1 then
        if m.dset == SET1 then Capital(bits, m, q) else Switch(m.(pos := q, dset := SET1))
      else if h == SET2 then Switch(m.(pos := q, dset := SET2))
      else InRange(HCODE, bits, p); Select(bits, q, h, m.upper)
  }

  function Step(bits: seq<bool>, m: Mode): (t: Turn)
    requires InSet(m)
    ensures Onward(m, m.pos + 1, t)
  {
    match ReadHead(bits, m)
    case Halt => Stop
    case Switch(m') => Next(m')
    case Symbol(p, h, v, upper) => Emit(bits, m, p, h, v, upper)
  }

  /** A code that is read is an index of SETS (h) or of one of its rows (v). */
  lemma InRange(table: seq<nat>, bits: seq<bool>, p: nat)
    requires table == VCODE || table == HCODE
    requires Code(table, bits, p).0 != NO_CODE
    ensures Code(table, bits, p).0 < if table == VCODE then 11 else 7
  {
    forall i: nat | i < 32 ensures table[i] / 8 < if table == VCODE then 11 else 7 { TableRange(i); }
    InRangeFrom(table, bits, p, 0, 0, if table == VCODE then 11 else 7);
  }

  lemma {:induction false} InRangeFrom(table: seq<nat>, bits: seq<bool>, p: nat, code: nat, count: nat, bound: nat)
    requires |table| == 32 && bound > 1 && forall i | 0 <= i < 32 :: table[i] / 8 < bound
    requires count < 5 && code < Shl(1, count)
    requires CodeFrom(table, bits, p, code, count).0 != NO_CODE
    ensures CodeFrom(table, bits, p, code, count).0 < bound
    decreases 5 - count
  {
    var code' := code + if bits[p] then WeightBound(count) else 0;
    if !(table[code'] != 0 && table[code'] % 8 == count + 1) && count + 1 < 5 {
      InRangeFrom(table, bits, p + 1, code', count + 1, bound);
    }
  }

  lemma TableRange(i: nat)
    requires i < 32
    ensures VCODE[i] / 8 < 11 && HCODE[i] / 8 < 7
  {
  }

  /** The loop: everything written until the input ends or a turn stops. */
  function Run(bits: seq<bool>, m: Mode): (r: Outcome)
    requires InSet(m)
    ensures r.Text? ==> m.out <= r.out
    decreases if m.pos < |bits| then |bits| - m.pos else 0
  {
    if m.pos >= |bits| then Text(m.out)
    else
      match Step(bits, m)
      case Next(m') => Run(bits, m')
      case Stop => Text(m.out)
      case Wild => WildAccess
  }

  function Decode(bits: seq<bool>): Outcome {
    Run(bits, Mode(0, SET1, false, ""))
  }

  // ---------------------------------------------------------------------------------
  // The code itself: loops over the input bytes and an output buffer.

  /** getBitVal. */
  function BitVal(input: seq<Byte>, bitNo: nat, count: nat): (r: nat)
    requires bitNo < 8 * |input|
    ensures r == if BitsOf(input)[bitNo] then Shl(1, count) else 0
  {
    TestsDigit(input[bitNo / 8], bitNo % 8);
    if And(input[bitNo / 8], Shr(0x80, bitNo % 8)) != 0 then Shl(1, count) else 0
  }

  lemma TestsDigit(b: Byte, i: nat)
    requires i < 8
    ensures (And(b, Shr(0x80, i)) != 0) == Digit(b, i)
  {
    assert Shr(0x80, i) == Shl(1, 7 - i) by {
      assert Shr(0x80, 0) == Shl(1, 7) && Shr(0x80, 1) == Shl(1, 6) && Shr(0x80, 2) == Shl(1, 5) && Shr(0x80, 3) == Shl(1, 4);
      assert Shr(0x80, 4) == Shl(1, 3) && Shr(0x80, 5) == Shl(1, 2) && Shr(0x80, 6) == Shl(1, 1) && Shr(0x80, 7) == Shl(1, 0);
    }
    AndDigit(b, 7 - i);
  }

  /** getCodeIdx. */
  method GetCodeIdx(table: seq<nat>, input: seq<Byte>, bitNo: nat) returns (idx: nat, next: nat)
    requires |table| == 32
    ensures (idx, next) == Code(table, BitsOf(input), bitNo)
  {
    var len := 8 * |input|;
    var code, count := 0, 0;
    next := bitNo;
    ghost var bits := BitsOf(input);
    while count < 5
      invariant 0 <= count <= 5
      invariant count < 5 ==> code < Shl(1, count) && CodeFrom(table, bits, next, code, count) == Code(table, bits, bitNo)
      invariant count == 5 ==> Code(table, bits, bitNo) == (1, next)
      decreases 5 - count
    {
      if next >= len {
        return NO_CODE, next;
      }
      ghost var weight := WeightBound(count);
      code := code + BitVal(input, next, count);
      next := next + 1;
      count := count + 1;
      if table[code] != 0 && table[code] % 8 == count {
        return table[code] / 8, next;
      }
    }
    return 1, next;
  }

  /** getNumFromBits. */
  method GetNumFromBits(input: seq<Byte>, bitNo: nat, count: nat) returns (ret: nat)
    requires bitNo + count <= 8 * |input|
    ensures ret == Num(BitsOf(input), bitNo, count)
  {
    ret := 0;
    var p, left := bitNo, count;
    while left > 0
      invariant p + left == bitNo + count
      invariant ret + Num(BitsOf(input), p, left) == Num(BitsOf(input), bitNo, count)
    {
      left := left - 1;
      ret := ret + BitVal(input, p, left);
      p := p + 1;
    }
  }

  /** readCount. */
  method ReadCountAt(input: seq<Byte>, bitNo: nat) returns (count: nat, next: nat)
    requires ReadCount(BitsOf(input), bitNo).Count?
    ensures ReadCount(BitsOf(input), bitNo) == Count(count, next)
  {
    var idx;
    idx, next := GetCodeIdx(HCODE, input, bitNo);
    if idx > 6 {
      return 0, next;
    }
    count := GetNumFromBits(input, next, READ_BITS[idx]);
    count := count + READ_BASE[idx];
    next := next + READ_BITS[idx];
  }

  /** memcpy of dictLen characters from dist before the end of the output. */
  method CopyOver(out: array<char>, ol: nat, dictLen: nat, dist: nat, ghost p: nat, ghost m: Mode)
    returns (ol': nat)
    requires ol <= out.Length && m.out == out[..ol]
    requires dist <= ol && dictLen <= dist && ol + dictLen <= out.Length
    modifies out
    ensures ol' <= out.Length
    ensures Copied(m, p, dictLen, dist) == Next(m.(pos := p, out := out[..ol']))
  {
    var from := ol - dist;
    for i := 0 to dictLen
      invariant out[..ol + i] == m.out + m.out[from..from + i]
    {
      assert out[from + i] == out[..ol + i][from + i];
      out[ol + i] := out[from + i];
    }
    ol' := ol + dictLen;
  }

  lemma CopyBackIs(bits: seq<bool>, m: Mode, p: nat, next: nat, dictLen: nat, dist: nat)
    requires InSet(m) && CopyBack(bits, m, p).Next?
    requires var n := ReadCount(bits, p + 1);
      dictLen == n.value + NICE_LEN_FOR_PRIOR
      && ReadCount(bits, n.pos).Count? && ReadCount(bits, n.pos).pos == next
      && dist == ReadCount(bits, n.pos).value + NICE_LEN_FOR_PRIOR - 1
    ensures CopyBack(bits, m, p) == Copied(m, next, dictLen, dist)
  {
  }

  /** A back-reference; the mode without previous lines has only this kind. */
  method CopyBackTo(input: seq<Byte>, out: array<char>, ol: nat, bitNo: nat, ghost m: Mode)
    returns (ol': nat, next: nat)
    requires InSet(m) && ol <= out.Length && m.out == out[..ol]
    requires var t := CopyBack(BitsOf(input), m, bitNo); t.Next? && |t.mode.out| <= out.Length
    modifies out
    ensures ol' <= out.Length
    ensures CopyBack(BitsOf(input), m, bitNo) == Next(m.(pos := next, out := out[..ol']))
  {
    var dictLen, dist;
    dictLen, next := ReadCountAt(input, bitNo + 1);
    dictLen := dictLen + NICE_LEN_FOR_PRIOR;
    dist, next := ReadCountAt(input, next);
    dist := dist + NICE_LEN_FOR_PRIOR - 1;
    CopyBackIs(BitsOf(input), m, bitNo, next, dictLen, dist);
    ol' := CopyOver(out, ol, dictLen, dist, next, m);
  }

  /** A run: the last character once more for every count. */
  method RepeatTo(input: seq<Byte>, out: array<char>, ol: nat, bitNo: nat, ghost m: Mode)
    returns (ol': nat, next: nat)
    requires InSet(m) && ol <= out.Length && m.out == out[..ol]
    requires var t := RepeatLast(BitsOf(input), m, bitNo); t.Next? && |t.mode.out| <= out.Length
    modifies out
    ensures ol' <= out.Length
    ensures RepeatLast(BitsOf(input), m, bitNo) == Next(m.(pos := next, out := out[..ol']))
  {
    ol' := ol;
    var count;
    count, next := ReadCountAt(input, bitNo);
    count := count + 4;
    var rptC := out[ol - 1];
    ghost var all := m.out + Repeat(rptC, count);
    while count > 0
      invariant ol <= ol' && ol' + count == |all|
      invariant out[..ol'] + Repeat(rptC, count) == all
    {
      count := count - 1;
      out[ol'] := rptC;
      ol' := ol' + 1;
      assert out[..ol'] == out[..ol' - 1] + [rptC] && Repeat(rptC, count + 1) == [rptC] + Repeat(rptC, count);
    }
    assert out[..ol'] == all;
  }

  /** The character part of the loop body. */
  method EmitTo(input: seq<Byte>, out: array<char>, ol: nat, bitNo: nat, h: nat, v: nat, isUpper: bool,
                dset: nat, ghost m: Mode)
    returns (ol': nat, next: nat)
    requires h < 7 && v < 11 && InSet(m)
    requires ol <= out.Length && m.out == out[..ol] && m.dset == dset
    requires var t := Emit(BitsOf(input), m, bitNo, h, v, isUpper);
      t.Next? && |t.mode.out| <= out.Length
    modifies out
    ensures ol' <= out.Length
    ensures Emit(BitsOf(input), m, bitNo, h, v, isUpper) == Next(m.(pos := next, out := out[..ol']))
  {
    ol', next := ol, bitNo;
    var c := SETS[h][v];
    if 'a' <= c <= 'z' {
      if isUpper {
        c := c - 32 as char;
      }
    } else {
      if isUpper && dset == SET1 && v == 1 {
        c := '\t';
      }
      if h == SET1B {
        match v
        case 6 =>
          out[ol'] := '\r';
          ol' := ol' + 1;
          c := '\n';
        case 7 =>
          c := if isUpper then '\r' else '\n';
        case 8 =>
          ol', next := CopyBackTo(input, out, ol, bitNo, m);
          return;
        case 9 =>
          ol', next := RepeatTo(input, out, ol, bitNo, m);
          return;
        case 10 =>
          return;
        case _ =>
      }
    }
    out[ol'] := c;
    ol' := ol' + 1;
  }

  /** What a turn decides before the character is looked up: whether the loop ends, whether
      it goes on at once with the new mode, or which character follows. */
  datatype Plan = Break | Continue(dset: nat, upper: bool, pos: nat) | Character(h: nat, v: nat, isUpper: bool, pos: nat)

  ghost function PlanOf(t: Head): Plan {
    match t
    case Halt => Break
    case Switch(m) => Continue(m.dset, m.upper, m.pos)
    case Symbol(p, h, v, upper) => Character(h, v, upper, p)
  }

  /** The first half of the loop body. */
  method ReadPlan(input: seq<Byte>, bitNo: nat, dstate: nat, isAllUpper: bool, ghost m: Mode) returns (plan: Plan)
    requires InSet(m) && m.pos == bitNo && m.dset == dstate && m.upper == isAllUpper
    ensures plan == PlanOf(ReadHead(BitsOf(input), m))
  {
    var isUpper := isAllUpper;
    var h, v, next := dstate, 0, bitNo;
    v, next := GetCodeIdx(VCODE, input, next);
    if v == NO_CODE {
      return Break;
    }
    if v == 0 {
      h, next := GetCodeIdx(HCODE, input, next);
      if h == NO_CODE {
        return Break;
      }
      if h == SET1 {
        if dstate == SET1 {
          if isAllUpper {
            return Continue(dstate, false, next);
          }
          v, next := GetCodeIdx(VCODE, input, next);
          if v == NO_CODE {
            return Break;
          }
          if v == 0 {
            h, next := GetCodeIdx(HCODE, input, next);
            if h == NO_CODE {
              return Break;
            }
            if h == SET1 {
              return Continue(dstate, true, next);
            }
          }
          isUpper := true;
        } else {
          return Continue(SET1, isAllUpper, next);
        }
      } else if h == SET2 {
        return Continue(if dstate == SET1 then SET2 else dstate, isAllUpper, next);
      }
      if h != SET1 {
        v, next := GetCodeIdx(VCODE, input, next);
        if v == NO_CODE {
          return Break;
        }
      }
    }
    return Character(h, v, isUpper, next);
  }

  /** One turn of the loop; go is false where the source breaks out of it. */
  method TakeTurn(input: seq<Byte>, out: array<char>, m: Mode) returns (go: bool, m': Mode)
    requires m.pos < 8 * |input| && InSet(m) && |m.out| <= out.Length && m.out == out[..|m.out|]
    requires var t := Step(BitsOf(input), m); !t.Wild? && (t.Next? ==> |t.mode.out| <= out.Length)
    modifies out
    ensures go ==> |m'.out| <= out.Length && m'.out == out[..|m'.out|] && Step(BitsOf(input), m) == Next(m')
    ensures !go ==> out[..] == old(out[..]) && m' == m && Step(BitsOf(input), m) == Stop
  {
    var plan := ReadPlan(input, m.pos, m.dset, m.upper, m);
    match plan
    case Break =>
      return false, m;
    case Continue(dset, upper, next) =>
      return true, m.(pos := next, dset := dset, upper := upper);
    case Character(h, v, isUpper, next) =>
      var ol', q := EmitTo(input, out, |m.out|, next, h, v, isUpper, m.dset, m);
      return true, m.(pos := q, out := out[..ol']);
  }

  /** shox96_0_2_decompress with prev_lines NULL. */
  method Decompress(input: seq<Byte>, out: array<char>) returns (ol: nat)
    requires Decode(BitsOf(input)).Text?
    requires 1 <= out.Length && |Decode(BitsOf(input)).out| <= out.Length
    modifies out
    ensures ol <= out.Length && Decode(BitsOf(input)) == Text(out[..ol])
  {
    ghost var bits := BitsOf(input);
    var dstate, bitNo, isAllUpper := SET1, 0, false;
    ol := 0;
    out[ol] := '\0';
    var len := 8 * |input|;
    while bitNo < len
      invariant ol <= out.Length && (dstate == SET1 || dstate == SET2)
      invariant Run(bits, Mode(bitNo, dstate, isAllUpper, out[..ol])) == Decode(bits)
      decreases len - bitNo
    {
      var m := Mode(bitNo, dstate, isAllUpper, out[..ol]);
      var go, m' := TakeTurn(input, out, m);
      if !go {
        break;
      }
      dstate, bitNo, isAllUpper, ol := m'.dset, m'.pos, m'.upper, |m'.out|;
    }
  }
}
