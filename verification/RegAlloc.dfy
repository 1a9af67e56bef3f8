/**
 Stack-slot allocation: an 8-byte slot for every temporary, and below them the alloca regions,
 each aligned as requested. Offsets are relative to %rbp.
 */
module RegAlloc {
  import opened Bits
  import opened Ir

  /** What `regalloc_run` reads of an alloca: its temporary and the size and alignment it will use. */
  datatype Region = Region(temp: nat, size: nat, align: nat)

  function RegionOf(i: Instr): Region
    requires i.Alloca?
  {
    Region(i.dst, if i.size > 0 then i.size else 8, if i.align > 0 then i.align else 8)
  }

  /** The alloca regions of a function, in the order of its instructions. */
  function Regions(code: seq<Instr>): seq<Region> {
    if code == [] then []
    else (if code[0].Alloca? then [RegionOf(code[0])] else []) + Regions(code[1..])
  }

  /** Bytes below %rbp in use once the first `k` regions are placed below `cur` bytes. */
  function Depth(rs: seq<Region>, cur: nat, k: nat): int
    requires k <= |rs|
  {
    if k == 0 then cur else AlignUp(Depth(rs, cur, k - 1), rs[k - 1].align) + rs[k - 1].size
  }

  /** The offset of region `k` is the depth once it has been placed. */
  function Offset(rs: seq<Region>, cur: nat, k: nat): int
    requires k < |rs|
  {
    -Depth(rs, cur, k + 1)
  }

  function FrameSize(rs: seq<Region>, cur: nat): int {
    var size := AlignUp(Depth(rs, cur, |rs|), 16);
    if size == 0 then 16 else size
  }

  predicate Slots(n: nat, slot: seq<int>) {
    |slot| == n + 1 && forall t :: 1 <= t < n ==> slot[t] == -8 * t
  }

  /** Of the first `k` regions the last one of each temporary is recorded; the other entries are 0. */
  predicate Recorded(rs: seq<Region>, n: nat, k: nat, off: seq<int>)
    requires k <= |rs|
  {
    && |off| == n + 1
    && (forall i :: 0 <= i < k && rs[i].temp <= n && (forall j :: i < j < k ==> rs[j].temp != rs[i].temp) ==>
          off[rs[i].temp] == Offset(rs, 8 * n, i))
    && (forall t :: 0 <= t <= n && (forall i :: 0 <= i < k ==> rs[i].temp != t) ==> off[t] == 0)
  }

  /** What the code generator is given. */
  predicate Allocated(code: seq<Instr>, n: nat, slot: seq<int>, off: seq<int>, frameSize: int) {
    var rs := Regions(code);
    Slots(n, slot) && Recorded(rs, n, |rs|, off) && frameSize == FrameSize(rs, 8 * n)
  }

  method AssignSlots(n: nat) returns (slot: array<int>)
    ensures fresh(slot) && Slots(n, slot[..])
  {
    slot := new int[n + 1](_ => 0);
    var t := 1;
    while t < n
      invariant t >= 1
      invariant forall u :: 1 <= u < t && u < n ==> slot[u] == -8 * u
    {
      slot[t] := -8 * t;
      t := t + 1;
    }
  }

  lemma RecordNext(rs: seq<Region>, n: nat, k: nat, off: seq<int>)
    requires k < |rs| && rs[k].temp <= n && Recorded(rs, n, k, off)
    ensures Recorded(rs, n, k + 1, off[rs[k].temp := Offset(rs, 8 * n, k)])
  {
    hide AlignUp, Depth;
  }

  lemma RegionsStep(code: seq<Instr>, i: nat)
    requires i < |code|
    ensures Regions(code[i..]) ==
            (if code[i].Alloca? then [RegionOf(code[i])] else []) + Regions(code[i + 1..])
  {
    assert code[i..][1..] == code[i + 1..];
  }

  /** `regalloc_run`: two loops over two arrays and a running depth. */
  method RegallocRun(code: seq<Instr>, n: nat) returns (slot: array<int>, off: array<int>, frameSize: int)
    requires forall i :: 0 <= i < |code| && code[i].Alloca? ==> code[i].dst < n
    ensures fresh(slot) && fresh(off)
    ensures Allocated(code, n, slot[..], off[..], frameSize)
  {
    hide AlignUp, Regions;
    slot := AssignSlots(n);
    off := new int[n + 1](_ => 0);
    var cur: int := 8 * n;
    ghost var rs := Regions(code);
    ghost var k: nat := 0;
    assert code[0..] == code;
    for i := 0 to |code|
      invariant k <= |rs| && rs[k..] == Regions(code[i..])
      invariant cur == Depth(rs, 8 * n, k)
      invariant Recorded(rs, n, k, off[..])
      invariant Slots(n, slot[..])
    {
      RegionsStep(code, i);
      if code[i].Alloca? {
        assert rs[k..][0] == RegionOf(code[i]);
        assert rs[k + 1..] == rs[k..][1..];
        var size := if code[i].size > 0 then code[i].size else 8;
        var align := if code[i].align > 0 then code[i].align else 8;
        cur := AlignUp(cur, align);
        cur := cur + size;
        RecordNext(rs, n, k, off[..]);
        off[code[i].dst] := -cur;
        k := k + 1;
      }
    }
    assert k == |rs| by {
      NoRegions();
      assert code[|code|..] == [];
    }
    frameSize := AlignUp(cur, 16);
    if frameSize == 0 {
      frameSize := 16;
    }
  }

  lemma NoRegions()
    ensures Regions([]) == []
  {
  }

  // ----- layout -----

  predicate Alignment(al: int) {
    al == 1 || al == 2 || al == 4 || al == 8 || al == 16
  }

  /** Requests with the alignments complete types have. */
  predicate Requests(rs: seq<Region>) {
    forall k :: 0 <= k < |rs| ==> rs[k].size >= 1 && Alignment(rs[k].align)
  }

  /** The running depth, a C `int`, never overflows. */
  predicate Fits(rs: seq<Region>, cur: nat) {
    forall k :: 0 <= k <= |rs| ==> Depth(rs, cur, k) < 0x7FFF_FFF0
  }

  lemma AlignSmall(x: nat, al: int)
    requires Alignment(al) && x < 0x8000_0000
    ensures x <= AlignUp(x, al) < x + al && AlignUp(x, al) % al == 0
  {
    assert Pow2(0) == 1 && Pow2(1) == 2 && Pow2(2) == 4 && Pow2(3) == 8 && Pow2(4) == 16;
    assert PowerOf2(al);
    Pow63();
    AlignUpLeast(x, al);
  }

  lemma {:induction false} DepthGrows(rs: seq<Region>, cur: nat, j: nat, k: nat)
    requires Requests(rs) && Fits(rs, cur) && j <= k <= |rs|
    ensures cur <= Depth(rs, cur, j) <= Depth(rs, cur, k)
    ensures j < k ==> Depth(rs, cur, j) + rs[k - 1].size <= Depth(rs, cur, k)
    decreases k
  {
    hide AlignUp;
    if k > 0 {
      if j < k {
        DepthGrows(rs, cur, j, k - 1);
        assert Depth(rs, cur, k - 1) < 0x7FFF_FFF0;
        AlignSmall(Depth(rs, cur, k - 1), rs[k - 1].align);
      } else {
        DepthGrows(rs, cur, k - 1, k - 1);
        assert Depth(rs, cur, k - 1) < 0x7FFF_FFF0;
        AlignSmall(Depth(rs, cur, k - 1), rs[k - 1].align);
      }
    }
  }

  /** The bytes a temporary's slot and a region occupy. */
  function SlotAt(t: nat): int {
    -8 * t
  }

  predicate Apart(a: int, n: int, b: int, m: int) {
    a + n <= b || b + m <= a
  }

  /**
   Every slot and every region lies inside the frame and no two of them overlap; the frame keeps
   %rsp 16-aligned.
   */
  lemma FrameLayout(rs: seq<Region>, n: nat)
    requires Requests(rs) && Fits(rs, 8 * n)
    ensures FrameSize(rs, 8 * n) % 16 == 0 && FrameSize(rs, 8 * n) >= 16
    ensures forall t :: 1 <= t < n ==> -FrameSize(rs, 8 * n) <= SlotAt(t) && SlotAt(t) + 8 <= 0
    ensures forall k :: 0 <= k < |rs| ==>
              -FrameSize(rs, 8 * n) <= Offset(rs, 8 * n, k) && Offset(rs, 8 * n, k) + rs[k].size <= 0
    ensures forall t, u :: 1 <= t < u < n ==> Apart(SlotAt(t), 8, SlotAt(u), 8)
    ensures forall t, k :: 1 <= t < n && 0 <= k < |rs| ==>
              Apart(SlotAt(t), 8, Offset(rs, 8 * n, k), rs[k].size)
    ensures forall j, k :: 0 <= j < k < |rs| ==>
              Apart(Offset(rs, 8 * n, j), rs[j].size, Offset(rs, 8 * n, k), rs[k].size)
  {
    hide AlignUp;
    var cur := 8 * n;
    DepthGrows(rs, cur, 0, |rs|);
    assert Depth(rs, cur, |rs|) < 0x7FFF_FFF0;
    AlignSmall(Depth(rs, cur, |rs|), 16);
    assert cur <= FrameSize(rs, cur);
    forall k | 0 <= k < |rs|
      ensures -FrameSize(rs, cur) <= Offset(rs, cur, k) && Offset(rs, cur, k) + rs[k].size <= -cur
    {
      DepthGrows(rs, cur, 0, k + 1);
      DepthGrows(rs, cur, k + 1, |rs|);
    }
    forall j, k | 0 <= j < k < |rs|
      ensures Offset(rs, cur, k) + rs[k].size <= Offset(rs, cur, j)
    {
      DepthGrows(rs, cur, j + 1, k + 1);
    }
  }

  /**
   With %rbp 16-aligned the address of a region is aligned exactly when its size is a multiple of
   its alignment: the allocator aligns the top of a region, not its address.
   */
  lemma RegionAligned(rs: seq<Region>, n: nat, k: nat, rbp: int)
    requires Requests(rs) && Fits(rs, 8 * n) && k < |rs| && rbp % 16 == 0
    ensures (rbp + Offset(rs, 8 * n, k)) % rs[k].align == 0 <==> rs[k].size % rs[k].align == 0
  {
    hide AlignUp;
    var cur, al := 8 * n, rs[k].align;
    DepthGrows(rs, cur, 0, k);
    assert Depth(rs, cur, k) < 0x7FFF_FFF0;
    AlignSmall(Depth(rs, cur, k), al);
    var top := AlignUp(Depth(rs, cur, k), al);
    assert Offset(rs, cur, k) == -(top + rs[k].size);
    DividesSixteen(rbp, al);
    Multiples(rbp, top, rs[k].size, al);
  }

  lemma DividesSixteen(x: int, al: int)
    requires Alignment(al) && x % 16 == 0
    ensures x % al == 0
  {
    var k := if al == 1 then 16 else if al == 2 then 8 else if al == 4 then 4 else if al == 8 then 2 else 1;
    assert x == 16 * (x / 16) && al * k == 16;
    assert x == al * (k * (x / 16));
    DivModUnique(x, al, k * (x / 16), 0);
  }

  lemma Multiples(x: int, y: int, size: int, al: int)
    requires al > 0 && x % al == 0 && y % al == 0
    ensures (x - (y + size)) % al == 0 <==> size % al == 0
  {
    var q, r := x / al - y / al - size / al, size % al;
    assert x - (y + size) == al * q - r by {
      Distribute(al, x / al, y / al, size / al);
    }
    if r == 0 {
      DivModUnique(x - (y + size), al, q, 0);
    } else {
      Distribute(al, q, 1, 0);
      DivModUnique(x - (y + size), al, q - 1, al - r);
    }
  }

  lemma Distribute(m: int, a: int, b: int, c: int)
    ensures m * (a - b - c) == m * a - m * b - m * c
  {
  }
}
