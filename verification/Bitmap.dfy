/** The kernel's bit map: a byte buffer scanned first fit.  A set bit marks a
    page, frame, block or inode that is taken. */
module Bitmaps {

  /** `Panic` is a failed ASSERT, which stops the machine; `NotFound` is the -1
      that the scan hands back. */
  datatype ScanResult = Panic | NotFound | Found(start: nat)

  /** What a scan of a map that is not full may answer: `beyond` is the bit
      after the map, which the scan examines last. */
  ghost predicate ScanOutcome(bits: seq<bool>, beyond: bool, cnt: nat, r: ScanResult) {
    match r
    case Found(s) => FirstFit(bits, cnt, s)
    case NotFound => forall t :: !FreeRun(bits + [beyond], t, cnt)
    case Panic => (forall t :: !FreeRun(bits, t, cnt))
                  && FreeRun(bits + [beyond], |bits| + 1 - cnt, cnt)
  }

  /** The scan's state: bits before `next` hold no run of `cnt`, and `count`
      clear bits end just before `next`. */
  ghost predicate Scanning(ext: seq<bool>, start: nat, cnt: nat, next: nat, count: nat) {
    && start < next <= |ext| && count < cnt && count <= next - start
    && (forall i :: next - count <= i < next ==> !ext[i])
    && (next - count > start ==> ext[next - count - 1])
    && (forall i :: 0 <= i < start ==> ext[i])
    && (forall t :: t + cnt <= next ==> !FreeRun(ext, t, cnt))
  }

  lemma ScanStep(ext: seq<bool>, start: nat, cnt: nat, next: nat, count: nat)
    requires Scanning(ext, start, cnt, next, count) && next < |ext|
    ensures ext[next] ==> Scanning(ext, start, cnt, next + 1, 0)
    ensures !ext[next] && count + 1 < cnt ==> Scanning(ext, start, cnt, next + 1, count + 1)
    ensures !ext[next] && count + 1 == cnt ==> FreeRun(ext, next + 1 - cnt, cnt)
  {
    forall t | t + cnt <= next + 1 && (ext[next] || count + 1 < cnt)
      ensures !FreeRun(ext, t, cnt)
    {
      if t + cnt == next + 1 && t >= 0 {
        if ext[next] {
          assert t <= next < t + cnt;
        } else if next - count > start {
          assert ext[next - count - 1] && t <= next - count - 1 < t + cnt;
        } else {
          assert t < start && ext[t];
        }
      }
    }
  }

  /** A run found at `next` is the first fit if it lies inside the map, and
      shows the map itself holds none if it uses the bit after. */
  lemma ScanHit(bits: seq<bool>, beyond: bool, start: nat, cnt: nat, next: nat, count: nat)
    requires Scanning(bits + [beyond], start, cnt, next, count) && next <= |bits|
    requires !(bits + [beyond])[next] && count + 1 == cnt
    ensures next < |bits| ==> FirstFit(bits, cnt, next + 1 - cnt)
    ensures next == |bits| ==> ScanOutcome(bits, beyond, cnt, Panic)
  {
    var ext := bits + [beyond];
    ScanStep(ext, start, cnt, next, count);
    assert forall i :: 0 <= i < |bits| ==> bits[i] == ext[i];
    forall t ensures FreeRun(bits, t, cnt) ==> FreeRun(ext, t, cnt) {}
  }

  /** The loop's entry, one round of it, and its end. */
  lemma ScanBegins(bits: seq<bool>, beyond: bool, start: nat, cnt: nat)
    requires start < |bits| && !bits[start] && cnt > 1 && forall i :: 0 <= i < start ==> bits[i]
    ensures Scanning(bits + [beyond], start, cnt, start + 1, 1)
  {
    var ext := bits + [beyond];
    forall t | t + cnt <= start + 1 ensures !FreeRun(ext, t, cnt) {
      assert t >= 0 ==> t < start && ext[t];
    }
  }

  lemma ScanNext(bits: seq<bool>, beyond: bool, start: nat, cnt: nat, next: nat, count: nat)
    requires Scanning(bits + [beyond], start, cnt, next, count) && next <= |bits|
    ensures var ext := bits + [beyond];
            var more := if ext[next] then 0 else count + 1;
            && more <= cnt && (more < cnt ==> Scanning(ext, start, cnt, next + 1, more))
            && (more == cnt ==>
                  && cnt <= next + 1
                  && ScanOutcome(bits, beyond, cnt, if next < |bits| then Found(next + 1 - cnt) else Panic))
  {
    ScanStep(bits + [beyond], start, cnt, next, count);
    if !(bits + [beyond])[next] && count + 1 == cnt {
      ScanHit(bits, beyond, start, cnt, next, count);
    }
  }

  lemma ScanEnds(bits: seq<bool>, beyond: bool, start: nat, cnt: nat, count: nat)
    requires Scanning(bits + [beyond], start, cnt, |bits| + 1, count)
    ensures ScanOutcome(bits, beyond, cnt, NotFound)
  {}

  function Mask(k: nat): bv8
    requires k < 8
  {
    (1 as bv8) << k
  }

  predicate BitAt(bytes: seq<bv8>, i: nat)
    requires i < 8 * |bytes|
  {
    bytes[i / 8] & Mask(i % 8) != 0
  }

  function Bits(bytes: seq<bv8>): (bits: seq<bool>)
    ensures |bits| == 8 * |bytes|
  {
    seq(8 * |bytes|, i requires 0 <= i < 8 * |bytes| => BitAt(bytes, i))
  }

  function Worth(on: bool, value: bv8): bv8 { if on then value else 0 }

  /** A byte with these bits, the lowest first. */
  predicate HasBits(x: bv8, a: bool, b: bool, c: bool, d: bool, e: bool, f: bool, g: bool, h: bool) {
    x == Worth(a, 1) + Worth(b, 2) + Worth(c, 4) + Worth(d, 8) + Worth(e, 16) + Worth(f, 32) + Worth(g, 64) + Worth(h, 128)
  }

  /** The lower bits of a byte come first in the map; its bits begin at `at`. */
  lemma ByteIsBits(bytes: seq<bv8>, q: nat, at: nat)
    requires q < |bytes| && at == 8 * q
    ensures var b := Bits(bytes);
            HasBits(bytes[q], b[at], b[at + 1], b[at + 2], b[at + 3], b[at + 4], b[at + 5], b[at + 6], b[at + 7])
  {
    SumOfMasks(bytes[q]);
    forall k: nat | k < 8
      ensures Bits(bytes)[at + k] <==> Mask(k) & bytes[q] != 0
    {
      BitInByte(bytes, q, k);
    }
    assert Bits(bytes)[at + 0] <==> Mask(0) & bytes[q] != 0;
  }

  lemma SumOfMasks(x: bv8)
    ensures HasBits(x, Mask(0) & x != 0, Mask(1) & x != 0, Mask(2) & x != 0, Mask(3) & x != 0,
                    Mask(4) & x != 0, Mask(5) & x != 0, Mask(6) & x != 0, Mask(7) & x != 0)
  {}

  /** `cnt` consecutive clear bits from `start`, all inside the map. */
  predicate FreeRun(bits: seq<bool>, start: int, cnt: nat) {
    0 <= start && start + cnt <= |bits| && forall i :: start <= i < start + cnt ==> !bits[i]
  }

  ghost predicate FirstFit(bits: seq<bool>, cnt: nat, start: nat) {
    FreeRun(bits, start, cnt) && forall t :: t < start ==> !FreeRun(bits, t, cnt)
  }

  predicate AllSet(bits: seq<bool>) {
    forall i :: 0 <= i < |bits| ==> bits[i]
  }

  function CountFree(bits: seq<bool>): nat {
    if bits == [] then 0 else (if bits[0] then 0 else 1) + CountFree(bits[1..])
  }

  /** The scan for one bit as a function: the least clear bit. */
  function FirstFree(bits: seq<bool>): (i: nat)
    requires !AllSet(bits)
    ensures i < |bits| && !bits[i] && forall j :: 0 <= j < i ==> bits[j]
  {
    if !bits[0] then 0
    else
      assert !AllSet(bits[1..]) by {
        var k :| 0 <= k < |bits| && !bits[k];
        assert bits[1..][k - 1] == bits[k];
      }
      1 + FirstFree(bits[1..])
  }

  lemma OneFits(bits: seq<bool>, start: nat)
    requires start < |bits| && !bits[start] && forall i :: 0 <= i < start ==> bits[i]
    ensures !AllSet(bits) && FirstFree(bits) == start && FirstFit(bits, 1, start)
  {
    forall t | t < start ensures !FreeRun(bits, t, 1) {
      assert t >= 0 ==> bits[t];
    }
  }

  /** A bit map is full exactly when it counts no clear bit. */
  lemma {:induction false} FullIffNoneFree(bits: seq<bool>)
    ensures AllSet(bits) <==> CountFree(bits) == 0
  {
    if bits != [] {
      FullIffNoneFree(bits[1..]);
      assert bits == [bits[0]] + bits[1..];
      assert AllSet(bits) <==> bits[0] && AllSet(bits[1..]) by {
        if AllSet(bits[1..]) && bits[0] {
          forall i | 0 <= i < |bits| ensures bits[i] {
            if i > 0 { assert bits[1..][i - 1]; }
          }
        }
      }
    }
  }

  /** Taking a clear bit, or freeing a set one, moves the count by one. */
  lemma {:induction false} CountFreeUpdate(bits: seq<bool>, i: nat)
    requires i < |bits|
    ensures CountFree(bits[i := true]) == CountFree(bits) - (if bits[i] then 0 else 1)
    ensures CountFree(bits[i := false]) == CountFree(bits) + (if bits[i] then 1 else 0)
  {
    if i > 0 {
      CountFreeUpdate(bits[1..], i - 1);
      assert bits[i := true][1..] == bits[1..][i - 1 := true];
      assert bits[i := false][1..] == bits[1..][i - 1 := false];
    } else {
      assert bits[i := true][1..] == bits[1..];
      assert bits[i := false][1..] == bits[1..];
    }
  }

  lemma MasksDiffer(b: bv8, j: nat, k: nat)
    requires j < 8 && k < 8
    ensures (b | Mask(k)) & Mask(j) != 0 <==> j == k || b & Mask(j) != 0
    ensures (b & !Mask(k)) & Mask(j) != 0 <==> j != k && b & Mask(j) != 0
    ensures b == 0xff ==> b & Mask(k) != 0
  {
    if j == 0 {} else if j == 1 {} else if j == 2 {} else if j == 3 {}
    else if j == 4 {} else if j == 5 {} else if j == 6 {} else {}
    if k == 0 {} else if k == 1 {} else if k == 2 {} else if k == 3 {}
    else if k == 4 {} else if k == 5 {} else if k == 6 {} else {}
  }

  function WithBit(b: bv8, k: nat, value: bool): bv8
    requires k < 8
  {
    if value then b | Mask(k) else b & !Mask(k)
  }

  lemma SetBitInByte(bytes: seq<bv8>, i: nat, value: bool)
    requires i < 8 * |bytes|
    ensures Bits(bytes[i / 8 := WithBit(bytes[i / 8], i % 8, value)]) == Bits(bytes)[i := value]
  {
    var after := bytes[i / 8 := WithBit(bytes[i / 8], i % 8, value)];
    forall j | 0 <= j < 8 * |bytes|
      ensures BitAt(after, j) == Bits(bytes)[i := value][j]
    {
      if j / 8 == i / 8 {
        MasksDiffer(bytes[i / 8], j % 8, i % 8);
      }
    }
  }

  lemma BitInByte(bytes: seq<bv8>, b: nat, k: nat)
    requires b < |bytes| && k < 8
    ensures Bits(bytes)[8 * b + k] <==> Mask(k) & bytes[b] != 0
  {
    assert (8 * b + k) / 8 == b && (8 * b + k) % 8 == k;
  }

  lemma FullByte(bytes: seq<bv8>, b: nat)
    requires b < |bytes| && bytes[b] == 0xff
    ensures forall i :: 8 * b <= i < 8 * b + 8 ==> BitAt(bytes, i)
  {
    forall i | 8 * b <= i < 8 * b + 8
      ensures BitAt(bytes, i)
    {
      MasksDiffer(bytes[b], 0, i % 8);
    }
  }

  lemma SomeBitClear(b: bv8) returns (k: nat)
    requires b != 0xff
    ensures k < 8 && b & Mask(k) == 0
  {
    if b & Mask(0) == 0 { return 0; }
    if b & Mask(1) == 0 { return 1; }
    if b & Mask(2) == 0 { return 2; }
    if b & Mask(3) == 0 { return 3; }
    if b & Mask(4) == 0 { return 4; }
    if b & Mask(5) == 0 { return 5; }
    if b & Mask(6) == 0 { return 6; }
    return 7;
  }

  /** A byte other than 0xff holds a clear bit of the map. */
  lemma NotFullByte(bytes: seq<bv8>, b: nat) returns (k: nat)
    requires b < |bytes| && bytes[b] != 0xff
    ensures k < 8 && !BitAt(bytes, 8 * b + k)
  {
    k := SomeBitClear(bytes[b]);
  }

  class Bitmap {
    /** The map's bytes, and the one byte of memory after them that the scan
        can look at. */
    const bits: array<bv8>
    /** btmp_bytes_len */
    const len: nat

    ghost predicate Valid()
      reads this
    {
      bits.Length == len + 1
    }

    ghost function View(): (v: seq<bool>)
      requires Valid()
      reads this, bits
      ensures |v| == 8 * len
    {
      Bits(bits[..len])
    }

    /** Bit 0 of the byte after the map. */
    ghost predicate Beyond()
      requires Valid()
      reads this, bits
    {
      bits[len] & Mask(0) != 0
    }

    constructor (bits: array<bv8>)
      requires bits.Length >= 1
      ensures Valid() && this.bits == bits && len == bits.Length - 1
    {
      this.bits := bits;
      this.len := bits.Length - 1;
    }

    method Init()
      requires Valid()
      modifies bits
      ensures View() == seq(8 * len, i => false) && bits[len] == old(bits[len])
    {
      for i := 0 to len
        invariant forall k :: 0 <= k < i ==> bits[k] == 0
        invariant bits[len] == old(bits[len])
      {
        bits[i] := 0;
      }
    }

    method ScanTest(i: nat) returns (taken: bool)
      requires Valid() && i <= 8 * len
      ensures taken == (View() + [Beyond()])[i]
    {
      taken := bits[i / 8] & Mask(i % 8) != 0;
    }

    method Set(i: nat, value: bool)
      requires Valid() && i < 8 * len
      modifies bits
      ensures View() == old(View())[i := value] && bits[len] == old(bits[len])
    {
      SetBitInByte(bits[..len], i, value);
      bits[i / 8] := WithBit(bits[i / 8], i % 8, value);
      assert bits[..len] == old(bits[..len])[i / 8 := WithBit(old(bits[i / 8]), i % 8, value)];
    }

    method FirstClearBit(idxByte: nat, ghost clear: nat) returns (idxBit: nat)
      requires Valid() && idxByte < len && clear < 8 && !View()[8 * idxByte + clear]
      ensures idxBit < 8 && !View()[8 * idxByte + idxBit]
      ensures forall i :: 8 * idxByte <= i < 8 * idxByte + idxBit ==> View()[i]
    {
      idxBit := 0;
      while Mask(idxBit) & bits[idxByte] != 0
        invariant idxBit <= clear
        invariant forall i :: 8 * idxByte <= i < 8 * idxByte + idxBit ==> View()[i]
        decreases 8 - idxBit
      {
        BitInByte(bits[..len], idxByte, idxBit);
        idxBit := idxBit + 1;
      }
      BitInByte(bits[..len], idxByte, idxBit);
    }

    /** Exact first fit.  The trailing ASSERT rejects exactly the request whose
        only run is completed by the bit after the map. */
    method Scan(cnt: nat) returns (r: ScanResult)
      requires Valid()
      ensures AllSet(View()) ==> r == Panic
      ensures !AllSet(View()) && cnt >= 1 ==> ScanOutcome(View(), Beyond(), cnt, r)
      ensures cnt == 1 && !AllSet(View()) ==> r == Found(FirstFree(View()))
    {
      var full, start := FirstClear();
      if full {
        return Panic;
      }
      if cnt == 1 {
        OneFits(View(), start);
        return Found(start);
      }
      r := ScanRun(start, cnt);
    }

    /** The first half: the first byte that is not full, and its first clear bit. */
    method FirstClear() returns (full: bool, start: nat)
      requires Valid()
      ensures full <==> AllSet(View())
      ensures !full ==> start < 8 * len && !View()[start] && forall i :: 0 <= i < start ==> View()[i]
    {
      var idxByte := 0;
      while bits[idxByte] == 0xff && idxByte < len
        invariant idxByte <= len
        invariant forall i :: 0 <= i < 8 * idxByte ==> BitAt(bits[..len], i)
      {
        FullByte(bits[..len], idxByte);
        idxByte := idxByte + 1;
      }
      if idxByte == len {
        return true, 0;
      }
      ghost var clear := NotFullByte(bits[..len], idxByte);
      assert !View()[8 * idxByte + clear];
      var idxBit := FirstClearBit(idxByte, clear);
      return false, 8 * idxByte + idxBit;
    }

    /** The second half of the scan: extend a run from the first clear bit. */
    method ScanRun(start: nat, cnt: nat) returns (r: ScanResult)
      requires Valid() && start < 8 * len && cnt != 1
      requires !View()[start] && forall i :: 0 <= i < start ==> View()[i]
      ensures cnt >= 1 ==> ScanOutcome(View(), Beyond(), cnt, r)
    {
      ghost var bitsNow, beyond := View(), Beyond();
      var bitLeft: nat := 8 * len - start;
      var nextBit: nat := start + 1;
      var count: nat := 1;
      if cnt > 1 {
        ScanBegins(bitsNow, beyond, start, cnt);
      }
      while bitLeft > 0
        invariant nextBit + bitLeft == 8 * len + 1
        invariant cnt > 1 ==> Scanning(bitsNow + [beyond], start, cnt, nextBit, count)
        decreases bitLeft
      {
        bitLeft := bitLeft - 1;
        count := CountOn(start, cnt, nextBit, count, bitsNow, beyond);
        if count == cnt {
          return if bitLeft != 0 then Found(nextBit + 1 - cnt) else Panic;
        }
        nextBit := nextBit + 1;
      }
      if cnt > 1 {
        assert nextBit == |bitsNow| + 1;
        ScanEnds(bitsNow, beyond, start, cnt, count);
      }
      return NotFound;
    }

    /** One more clear bit, or the count starts again. */
    method CountOn(ghost start: nat, ghost cnt: nat, nextBit: nat, count: nat, ghost v: seq<bool>, ghost beyond: bool)
        returns (more: nat)
      requires Valid() && nextBit <= 8 * len && v == View() && beyond == Beyond()
      requires cnt > 1 ==> Scanning(v + [beyond], start, cnt, nextBit, count)
      ensures cnt > 1 ==> more <= cnt && (more < cnt ==> Scanning(v + [beyond], start, cnt, nextBit + 1, more))
      ensures cnt > 1 && more == cnt ==>
                && cnt <= nextBit + 1
                && ScanOutcome(v, beyond, cnt, if nextBit < 8 * len then Found(nextBit + 1 - cnt) else Panic)
    {
      var taken := ScanTest(nextBit);
      if cnt > 1 {
        ScanNext(v, beyond, start, cnt, nextBit, count);
      }
      if !taken {
        more := count + 1;
      } else {
        more := 0;
      }
    }
  }
}
