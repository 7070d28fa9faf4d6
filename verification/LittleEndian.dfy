/** Little-endian numbers, and the append cursor that writes them. */
module LittleEndian {
  import opened Bitwise

  /** The k octets of a number, the least significant first. */
  function Le(n: nat, k: nat): (r: Bytes)
    ensures |r| == k
    decreases k
  {
    if k == 0 then [] else [n % 256] + Le(n / 256, k - 1)
  }

  function FromLe(b: Bytes): nat {
    if b == [] then 0 else b[0] + 256 * FromLe(b[1..])
  }

  lemma {:induction false} LeRoundTrip(n: nat, k: nat)
    requires n < Power256(k)
    ensures FromLe(Le(n, k)) == n
    decreases k
  {
    if k > 0 {
      assert n / 256 < Power256(k - 1);
      LeRoundTrip(n / 256, k - 1);
      assert Le(n, k)[1..] == Le(n / 256, k - 1);
    }
  }

  lemma Powers()
    ensures Power256(1) == 0x100 && Power256(2) == 0x1_0000 && Power256(4) == 0x1_0000_0000
    ensures Power256(8) == 0x1_0000_0000_0000_0000
  {
    assert Power256(3) == 0x100_0000;
    assert Power256(5) == 0x100_0000_0000 && Power256(6) == 0x1_0000_0000_0000 && Power256(7) == 0x100_0000_0000_0000;
  }

  function Concat(parts: seq<Bytes>): Bytes {
    if parts == [] then [] else Concat(parts[..|parts| - 1]) + parts[|parts| - 1]
  }

  lemma {:induction false} ConcatGrows(parts: seq<Bytes>, i: nat)
    requires i <= |parts|
    ensures |Concat(parts[..i])| <= |Concat(parts)|
    decreases |parts| - i
  {
    if i == |parts| {
      assert parts[..i] == parts;
    } else {
      ConcatGrows(parts, i + 1);
      assert parts[..i + 1][..i] == parts[..i];
    }
  }

  /** An append cursor over a buffer; a write that does not fit writes nothing. */
  class Writer {
    const out: array<Byte>
    var pos: nat

    ghost predicate Valid()
      reads this
    {
      pos <= out.Length
    }

    ghost function Contents(): Bytes
      requires Valid()
      reads this, out
    {
      out[..pos]
    }

    constructor (out: array<Byte>)
      ensures Valid() && this.out == out && pos == 0
    {
      this.out := out;
      pos := 0;
    }

    method Raw(data: Bytes) returns (ok: bool)
      requires Valid()
      modifies this`pos, out
      ensures Valid() && ok == (old(pos) + |data| <= out.Length)
      ensures Contents() == old(Contents()) + if ok then data else []
    {
      if pos + |data| > out.Length { return false; }
      ghost var was := Contents();
      forall i | 0 <= i < |data| { out[pos + i] := data[i]; }
      assert out[..pos] == was;
      pos := pos + |data|;
      assert Contents() == was + data;
      ok := true;
    }

    /** A chain of writes joined by &&: it stops at the first that does not fit. */
    method All(parts: seq<Bytes>) returns (ok: bool)
      requires Valid()
      modifies this`pos, out
      ensures Valid() && ok == (old(pos) + |Concat(parts)| <= out.Length)
      ensures ok ==> Contents() == old(Contents()) + Concat(parts)
      ensures old(Contents()) <= Contents()
    {
      ghost var was := Contents();
      assert was + [] == was;
      for i := 0 to |parts|
        invariant Valid() && Contents() == was + Concat(parts[..i])
      {
        assert parts[..i + 1][..i] == parts[..i];
        ok := Raw(parts[i]);
        if !ok {
          ConcatGrows(parts, i + 1);
          return;
        }
      }
      assert parts[..|parts|] == parts;
      ok := true;
    }

    /** patchU32: over four octets already written. */
    method Patch(offset: nat, value: nat)
      requires Valid() && offset + 4 <= pos
      modifies out
      ensures Contents() == old(Contents())[..offset] + Le(value, 4) + old(Contents())[offset + 4..]
    {
      ghost var was := Contents();
      var b := Le(value, 4);
      out[offset], out[offset + 1], out[offset + 2], out[offset + 3] := b[0], b[1], b[2], b[3];
      ghost var r := was[..offset] + b + was[offset + 4..];
      forall k | 0 <= k < pos ensures Contents()[k] == r[k] {
        if k < offset { } else if k < offset + 4 { assert r[k] == b[k - offset]; } else { }
      }
    }
  }
}
