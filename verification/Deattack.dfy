/**
 The CRC-32 compensation attack detector: an open-addressed hash table with linear probing,
 kept and grown between calls, that must agree with a quadratic scan over the packet.
 */
module Deattack {
  import opened Words
  import opened Bits
  import ModArith

  type u16 = x: int | 0 <= x < 0x1_0000

  const MAX_IDENTICAL := 32
  const SSH_MAXBLOCKS := 32 * 1024
  const HASH_UNUSED: u16 := 0xffff

  datatype Verdict = Ok | Detected | DosDetected | Error

  /** The CRC test on a block and the whole packet. */
  type Check = (seq<u8>, seq<u8>) -> bool

  function NBlocks(buf: seq<u8>): nat {
    |buf| / 8
  }

  function Block(buf: seq<u8>, k: nat): (b: seq<u8>)
    requires k < NBlocks(buf)
    ensures |b| == 8
  {
    buf[8 * k..8 * k + 8]
  }

  // ---- the reference scan ----

  /** Block j is equal to an earlier block. */
  predicate Repeats(buf: seq<u8>, j: nat)
    requires j < NBlocks(buf)
  {
    exists i :: 0 <= i < j && Block(buf, i) == Block(buf, j)
  }

  /** Looks at the blocks from j on, `same` repeated ones having been accepted so far. */
  function Scan(buf: seq<u8>, check: Check, j: nat, same: nat): Verdict
    requires j <= NBlocks(buf)
    decreases NBlocks(buf) - j
  {
    if j == NBlocks(buf) then Ok
    else if !Repeats(buf, j) then Scan(buf, check, j + 1, same)
    else if same + 1 > MAX_IDENTICAL then DosDetected
    else if check(Block(buf, j), buf) then Detected
    else Scan(buf, check, j + 1, same + 1)
  }

  /** The scan for short packets, which does not count. */
  function PlainScan(buf: seq<u8>, check: Check, j: nat): Verdict
    requires j <= NBlocks(buf)
    decreases NBlocks(buf) - j
  {
    if j == NBlocks(buf) then Ok
    else if Repeats(buf, j) && check(Block(buf, j), buf) then Detected
    else PlainScan(buf, check, j + 1)
  }

  /** With few enough blocks left, counting makes no difference. */
  lemma {:induction false} PlainScanAgrees(buf: seq<u8>, check: Check, j: nat, same: nat)
    requires j <= NBlocks(buf) && same + (NBlocks(buf) - j) <= MAX_IDENTICAL
    ensures PlainScan(buf, check, j) == Scan(buf, check, j, same)
    decreases NBlocks(buf) - j
  {
    if j < NBlocks(buf) {
      PlainScanAgrees(buf, check, j + 1, same);
      if Repeats(buf, j) {
        PlainScanAgrees(buf, check, j + 1, same + 1);
      }
    }
  }

  // ---- what the scan finds ----

  /** The blocks below n that are equal to an earlier one. */
  function Repeated(buf: seq<u8>, n: nat): set<nat>
    requires n <= NBlocks(buf)
  {
    set j | 0 <= j < n && Repeats(buf, j)
  }

  predicate Suspect(buf: seq<u8>, check: Check, j: nat)
    requires j < NBlocks(buf)
  {
    Repeats(buf, j) && check(Block(buf, j), buf)
  }

  /** Block j is the first repeated one that the CRC test is true of, and at most the 32nd repeated one. */
  predicate FirstSuspect(buf: seq<u8>, check: Check, j: nat)
    requires j < NBlocks(buf)
  {
    && Suspect(buf, check, j) && |Repeated(buf, j + 1)| <= 32
    && forall i :: 0 <= i < j ==> !Suspect(buf, check, i)
  }

  /** The verdict in terms of the repeated blocks alone. */
  ghost predicate Judged(buf: seq<u8>, check: Check, v: Verdict) {
    && (v == Detected <==> exists j :: 0 <= j < NBlocks(buf) && FirstSuspect(buf, check, j))
    && (v == DosDetected <==>
          && |Repeated(buf, NBlocks(buf))| > 32
          && forall j :: 0 <= j < NBlocks(buf) && |Repeated(buf, j + 1)| <= 32 ==> !Suspect(buf, check, j))
    && (v == Ok <==> |Repeated(buf, NBlocks(buf))| <= 32 && forall j :: 0 <= j < NBlocks(buf) ==> !Suspect(buf, check, j))
  }

  lemma RepeatedNext(buf: seq<u8>, j: nat)
    requires j < NBlocks(buf)
    ensures |Repeated(buf, j + 1)| == |Repeated(buf, j)| + if Repeats(buf, j) then 1 else 0
  {
    assert Repeated(buf, j + 1) == Repeated(buf, j) + if Repeats(buf, j) then {j} else {};
  }

  lemma {:induction false} RepeatedGrows(buf: seq<u8>, i: nat, j: nat)
    requires i <= j <= NBlocks(buf)
    ensures |Repeated(buf, i)| <= |Repeated(buf, j)|
    decreases j - i
  {
    if i < j {
      RepeatedNext(buf, i);
      RepeatedGrows(buf, i + 1, j);
    }
  }

  /** The scan from block j on, with no suspect before it and as many repeated ones as have been counted. */
  lemma {:induction false} ScanJudges(buf: seq<u8>, check: Check, j: nat)
    requires j <= NBlocks(buf) && |Repeated(buf, j)| <= 32
    requires forall i :: 0 <= i < j ==> !Suspect(buf, check, i)
    ensures Judged(buf, check, Scan(buf, check, j, |Repeated(buf, j)|))
    decreases NBlocks(buf) - j
  {
    hide Judged, Repeats, Repeated, Block;
    if j < NBlocks(buf) {
      RepeatedNext(buf, j);
      if Repeats(buf, j) && |Repeated(buf, j)| + 1 > 32 {
        StopsAt(buf, check, j);
      } else if Suspect(buf, check, j) {
        FoundAtOnce(buf, check, j);
      } else {
        ScanJudges(buf, check, j + 1);
      }
    } else {
      NoSuspect(buf, check);
    }
  }

  lemma FoundAtOnce(buf: seq<u8>, check: Check, j: nat)
    requires j < NBlocks(buf) && FirstSuspect(buf, check, j)
    ensures Judged(buf, check, Detected)
  {
    hide Repeats, Repeated, Block;
  }

  /** From the 33rd repeated block on nothing is looked at. */
  lemma StopsAt(buf: seq<u8>, check: Check, j: nat)
    requires j < NBlocks(buf) && |Repeated(buf, j + 1)| > 32
    requires forall i :: 0 <= i < j ==> !Suspect(buf, check, i)
    ensures Judged(buf, check, DosDetected)
  {
    RepeatedGrows(buf, j + 1, NBlocks(buf));
    forall i | 0 <= i < NBlocks(buf) && |Repeated(buf, i + 1)| <= 32
      ensures !Suspect(buf, check, i)
    {
      if i >= j {
        RepeatedGrows(buf, j + 1, i + 1);
      }
    }
  }

  lemma NoSuspect(buf: seq<u8>, check: Check)
    requires |Repeated(buf, NBlocks(buf))| <= 32 && forall i :: 0 <= i < NBlocks(buf) ==> !Suspect(buf, check, i)
    ensures Judged(buf, check, Ok)
  {
  }

  /** The reference scan finds what it should. */
  lemma ScanMeans(buf: seq<u8>, check: Check)
    ensures Judged(buf, check, Scan(buf, check, 0, 0))
  {
    assert Repeated(buf, 0) == {};
    ScanJudges(buf, check, 0);
  }

  // ---- hashing ----

  /** A table size: 4096 quadrupled some number of times. */
  predicate TableSize(n: nat) {
    n == 4096 || n == 16384 || n == 65536
  }

  /** Masking with a table size less one takes the residue. */
  lemma MaskIsMod(x: nat, n: nat)
    requires TableSize(n)
    ensures And(x, n - 1) == x % n
  {
    PowerValues();
    assert Power(12) == 4096 && Power(14) == 16384 by { SmallPowers(); }
    if n == 4096 {
      AndMask(x, 12);
    } else if n == 16384 {
      AndMask(x, 14);
    } else {
      AndMask(x, 16);
    }
  }

  lemma SmallPowers()
    ensures Power(12) == 4096 && Power(14) == 16384
  {
    assert Power(4) == 16;
    assert Power(8) == 256;
    assert Power(12) == 4096;
  }

  /** The slot d places after home, cyclically. */
  function Slot(home: nat, d: nat, n: nat): nat {
    if home + d < n then home + d else home + d - n
  }

  function Home(b: seq<u8>, n: nat): nat
    requires |b| == 8 && n > 0
  {
    U32At(b) % n
  }

  // ---- the probing invariant ----

  /** From home, the d slots before the d-th are in use. */
  ghost predicate Run(t: seq<u16>, home: nat, d: nat)
    requires home < |t| && d <= |t|
  {
    forall e :: 0 <= e < d ==> t[Slot(home, e, |t|)] != HASH_UNUSED
  }

  /** Block k can be found d slots from its home, by the number stored there. */
  ghost predicate FoundAt(buf: seq<u8>, t: seq<u16>, k: nat, d: nat)
    requires k < NBlocks(buf) && |t| > 0
  {
    var home := Home(Block(buf, k), |t|);
    && d < |t| && Run(t, home, d)
    && var v := t[Slot(home, d, |t|)];
       v < NBlocks(buf) && v != HASH_UNUSED && Block(buf, v) == Block(buf, k)
  }

  /** The table after j blocks: `at` gives the distance from home at which each is found. */
  ghost predicate Indexes(buf: seq<u8>, t: seq<u16>, j: nat, at: seq<nat>) {
    && j <= NBlocks(buf) && |at| == j && |t| > 0
    && (forall s :: 0 <= s < |t| ==> t[s] == HASH_UNUSED || t[s] < j)
    && (forall k :: 0 <= k < j ==> FoundAt(buf, t, k, at[k]))
  }

  /** The slots in use. */
  ghost function Used(t: seq<u16>): set<nat> {
    set s: nat | s < |t| && t[s] != HASH_UNUSED
  }

  /** If fewer slots are used than there are, one is free, at some distance from home. */
  lemma FreeSlot(t: seq<u16>, home: nat) returns (d: nat)
    requires home < |t| && |Used(t)| < |t|
    ensures d < |t| && t[Slot(home, d, |t|)] == HASH_UNUSED
  {
    var all := Range(|t|);
    if all - Used(t) == {} {
      SubsetSize(all, Used(t));
    }
    var f :| f in all && f !in Used(t);
    d := if f >= home then f - home else f + |t| - home;
  }

  /** The numbers below n; there are n of them. */
  ghost function Range(n: nat): (r: set<nat>)
    ensures |r| == n && forall s: nat :: s in r <==> s < n
  {
    if n == 0 then {} else Range(n - 1) + {n - 1}
  }

  /** Writing j into a slot: the number of used slots grows by at most one. */
  lemma UsedAfterWrite(t: seq<u16>, i: nat, j: u16)
    requires i < |t|
    ensures |Used(t[i := j])| <= |Used(t)| + 1
  {
    assert Used(t[i := j]) <= Used(t) + {i};
    SubsetSize(Used(t[i := j]), Used(t) + {i});
  }

  lemma {:induction false} SubsetSize(a: set<nat>, b: set<nat>)
    requires a <= b
    ensures |a| <= |b|
  {
    if a != {} {
      var x :| x in a;
      SubsetSize(a - {x}, b - {x});
    }
  }

  /** A probe that stops at a free slot has seen every equal block there is. */
  lemma MissMeansNew(buf: seq<u8>, t: seq<u16>, j: nat, at: seq<nat>, d: nat)
    requires Indexes(buf, t, j, at) && j < NBlocks(buf) && d < |t|
    requires var home := Home(Block(buf, j), |t|);
      && t[Slot(home, d, |t|)] == HASH_UNUSED
      && forall e :: 0 <= e < d ==>
           t[Slot(home, e, |t|)] < j && Block(buf, t[Slot(home, e, |t|)]) != Block(buf, j)
    ensures !Repeats(buf, j)
  {
    forall k | 0 <= k < j
      ensures Block(buf, k) != Block(buf, j)
    {
      assert FoundAt(buf, t, k, at[k]);
    }
  }

  /** Storing j where the probe stopped keeps every block findable. */
  lemma StoreKeepsIndex(buf: seq<u8>, t: seq<u16>, j: nat, at: seq<nat>, d: nat)
    requires Indexes(buf, t, j, at) && j < NBlocks(buf) && j < HASH_UNUSED && d < |t|
    requires var home := Home(Block(buf, j), |t|);
      && Run(t, home, d)
      && var v := t[Slot(home, d, |t|)]; v == HASH_UNUSED || (v < j && Block(buf, v) == Block(buf, j))
    ensures Indexes(buf, t[Slot(Home(Block(buf, j), |t|), d, |t|) := j], j + 1, at + [d])
  {
    var i := Slot(Home(Block(buf, j), |t|), d, |t|);
    var t' := t[i := j];
    forall k | 0 <= k < j
      ensures FoundAt(buf, t', k, at[k])
    {
      assert FoundAt(buf, t, k, at[k]);
      var home := Home(Block(buf, k), |t|);
      assert Run(t', home, at[k]);
    }
    assert FoundAt(buf, t', j, d);
    assert forall k :: 0 <= k < j ==> (at + [d])[k] == at[k];
  }

  // ---- the detector ----

  class Detector {
    var h: array?<u16>
    var n: u32

    /** The table, once allocated, has the recorded size, and that size is a table size. */
    ghost predicate Valid()
      reads this
    {
      TableSize(n) && (h != null ==> h.Length == n)
    }

    constructor ()
      ensures Valid() && h == null && n == 4096
    {
      h := null;
      n := 0x2000 / 2;
    }

    /** The size that a packet of `blocks` blocks asks for. */
    static method Grow(n: u32, blocks: nat) returns (l: u32)
      requires TableSize(n) && blocks <= SSH_MAXBLOCKS
      ensures TableSize(l) && l >= n && 3 * blocks / 2 <= l
      ensures l == n <==> 3 * blocks / 2 <= n
    {
      l := n;
      while l < 3 * blocks / 2
        invariant TableSize(l) && l >= n
        invariant l > n ==> n < 3 * blocks / 2
        decreases 65536 - l
      {
        l := Wrap32(l * 4);
      }
    }

    /** Allocates or enlarges the table; false if there was no memory for that. */
    method Reserve(l: u32, memory: bool) returns (ok: bool)
      requires Valid() && TableSize(l) && l >= n
      modifies this
      ensures Valid() && n >= old(n)
      ensures ok <==> memory || (old(h) != null && l == old(n))
      ensures ok ==> h != null && n == l && (h == old(h) || fresh(h))
      ensures !ok ==> h == null && n == old(n)
    {
      if h == null {
        if !memory {
          return false;
        }
        h := new u16[l];
        n := l;
      } else if l > n {
        if !memory {
          h := null;
          return false;
        }
        var tmp := new u16[l];
        h := tmp;
        n := l;
      }
      return true;
    }

    static method FirstSlot(c: seq<u8>, n: u32) returns (i: nat)
      requires |c| == 8 && TableSize(n)
      ensures i == Home(c, n) && i < n
    {
      hide And, U32At;
      MaskIsMod(U32At(c), n);
      i := And(U32At(c), n - 1);
    }

    static method NextSlot(i: nat, n: u32) returns (i': nat)
      requires TableSize(n) && i < n
      ensures i' == if i + 1 == n then 0 else i + 1
    {
      hide And;
      MaskIsMod(i + 1, n);
      i' := And(i + 1, n - 1);
      ModArith.DivModUnique(i + 1, if i + 1 == n then 1 else 0, if i + 1 == n then 0 else i + 1, n);
    }

    /** Follows the probe sequence of block j to an equal block or a free slot. */
    method Probe(buf: seq<u8>, j: nat, ghost at: seq<nat>) returns (i: nat, hit: bool, ghost d: nat)
      requires Valid() && h != null && j < NBlocks(buf)
      requires Indexes(buf, h[..], j, at) && |Used(h[..])| < n
      ensures d < n && i == Slot(Home(Block(buf, j), n), d, n) && i < n
      ensures Run(h[..], Home(Block(buf, j), n), d)
      ensures if hit then h[i] < j && Block(buf, h[i]) == Block(buf, j) else h[i] == HASH_UNUSED
      ensures hit <==> Repeats(buf, j)
    {
      var c := Block(buf, j);
      ghost var home := Home(c, n);
      ghost var t := h[..];
      ghost var free := FreeSlot(t, home);
      i := FirstSlot(c, n);
      d := 0;
      while h[i] != HASH_UNUSED
        invariant d <= free && i == Slot(home, d, n) && i < n
        invariant forall e :: 0 <= e < d ==>
          t[Slot(home, e, n)] < j && t[Slot(home, e, n)] != HASH_UNUSED && Block(buf, t[Slot(home, e, n)]) != c
        decreases free - d
      {
        assert t[i] < j;
        if c == Block(buf, h[i]) {
          return i, true, d;
        }
        i := NextSlot(i, n);
        d := d + 1;
      }
      MissMeansNew(buf, t, j, at, d);
      return i, false, d;
    }

    /** Marks every slot unused. */
    method Clear()
      requires Valid() && h != null
      modifies h
      ensures forall s :: 0 <= s < n ==> h[s] == HASH_UNUSED
    {
      for s := 0 to h.Length
        invariant forall r :: 0 <= r < s ==> h[r] == HASH_UNUSED
      {
        h[s] := HASH_UNUSED;
      }
    }

    /** The hash-table scan. */
    method HashScan(buf: seq<u8>, check: Check) returns (v: Verdict)
      requires Valid() && h != null && NBlocks(buf) <= SSH_MAXBLOCKS && 3 * NBlocks(buf) / 2 <= n
      modifies h
      ensures v == Scan(buf, check, 0, 0)
    {
      Clear();
      ghost var at: seq<nat> := [];
      assert Used(h[..]) == {};
      var same, j := 0, 0;
      while j < NBlocks(buf)
        invariant j <= NBlocks(buf) && Indexes(buf, h[..], j, at) && |Used(h[..])| <= j
        invariant Scan(buf, check, 0, 0) == Scan(buf, check, j, same)
      {
        hide Indexes, Run, U32At, Used;
        var i, hit;
        ghost var d;
        i, hit, d := Probe(buf, j, at);
        if hit {
          same := same + 1;
          if same > MAX_IDENTICAL {
            return DosDetected;
          }
          if check(Block(buf, j), buf) {
            return Detected;
          }
        }
        ghost var t := h[..];
        StoreKeepsIndex(buf, t, j, at, d);
        UsedAfterWrite(t, i, j);
        var j16: u16 := j;
        h[i] := j16;
        assert h[..] == t[i := j16];
        at := at + [d];
        j := j + 1;
      }
      return Ok;
    }

    /** The pairwise scan for packets of at most seven blocks. */
    method ShortScan(buf: seq<u8>, check: Check) returns (v: Verdict)
      ensures v == PlainScan(buf, check, 0)
    {
      var c := 0;
      while c < NBlocks(buf)
        invariant c <= NBlocks(buf)
        invariant PlainScan(buf, check, 0) == PlainScan(buf, check, c)
      {
        var d := 0;
        while d < c
          invariant d <= c
          invariant forall i :: 0 <= i < d ==> Block(buf, i) != Block(buf, c)
        {
          if Block(buf, c) == Block(buf, d) {
            if check(Block(buf, c), buf) {
              return Detected;
            }
            break;
          }
          d := d + 1;
        }
        c := c + 1;
      }
      return Ok;
    }

    /**
     The verdict depends on the repeated blocks alone, whatever earlier calls left in the table.
     `memory` says whether an allocation, if one is needed, succeeds.
     */
    method DetectAttack(buf: seq<u8>, check: Check, memory: bool) returns (v: Verdict)
      requires Valid()
      modifies this, h
      ensures Valid() && n >= old(n)
      ensures |buf| > 8 * SSH_MAXBLOCKS || |buf| % 8 != 0 ==> v == Error && h == old(h) && n == old(n)
      ensures |buf| <= 8 * SSH_MAXBLOCKS && |buf| % 8 == 0 ==>
                if memory || (old(h) != null && 3 * NBlocks(buf) / 2 <= old(n)) then Judged(buf, check, v)
                else v == Error && h == null && n == old(n)
    {
      if |buf| > SSH_MAXBLOCKS * 8 || |buf| % 8 != 0 {
        return Error;
      }
      var l := Grow(n, |buf| / 8);
      var ok := Reserve(l, memory);
      if !ok {
        return Error;
      }
      if |buf| <= 7 * 8 {
        v := ShortScan(buf, check);
        PlainScanAgrees(buf, check, 0, 0);
      } else {
        v := HashScan(buf, check);
      }
      ScanMeans(buf, check);
    }
  }
}
