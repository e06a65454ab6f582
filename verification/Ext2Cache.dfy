/**
 * The four-slot block cache between the EXT2 driver and the disk (fs/ext2/block.c).
 *
 * Every read returns what the disk holds.  From zeroed counters, a block that was
 * read also stays where it is until three other blocks have been read.
 */
module Ext2Cache {
  import opened Bytes

  const SLOTS_IN_CACHE: nat := 4

  /** block_cache_slot_t; no == 0 marks an empty slot */
  datatype Slot = Slot(no: nat, age: nat, data: Block)

  ghost predicate Coherent(s: seq<Slot>, disk: seq<Block>) {
    && (forall i :: 0 <= i < |s| && s[i].no != 0 ==> s[i].no < |disk| && s[i].data == disk[s[i].no])
    && NoTwins(s)
  }

  /** No block number occupies two slots. */
  ghost predicate NoTwins(s: seq<Slot>) {
    forall i, j :: 0 <= i < j < |s| && s[i].no != 0 ==> s[i].no != s[j].no
  }

  /**
   * How the ages relate to the reads since the counters were zero: the k-th
   * successful read got age k, a slot's age is its block's last read, no two used
   * slots share an age, and empty slots are older than all others.
   */
  ghost predicate Ordered(s: seq<Slot>, log: seq<nat>) {
    && (forall i :: 0 <= i < |s| ==> s[i].age <= |log|)
    && (forall i :: 0 <= i < |s| && s[i].no != 0 ==> LastRead(log, s[i].no, s[i].age))
    && (forall i, j :: 0 <= i < |s| && 0 <= j < |s| && s[i].no == 0 && s[j].no != 0 ==> s[i].age < s[j].age)
  }

  /** b's last read was the age-th. */
  ghost predicate LastRead(log: seq<nat>, b: nat, age: nat) {
    1 <= age <= |log| && log[age - 1] == b && forall k :: age <= k < |log| ==> log[k] != b
  }

  /** The blocks read after the age-th read. */
  ghost function ReadSince(log: seq<nat>, age: nat): set<nat>
    requires age <= |log|
  {
    set k | age <= k < |log| :: log[k]
  }

  lemma LogGrows(log: seq<nat>, b: nat, c: nat, age: nat)
    ensures LastRead(log, b, age) && b != c ==> LastRead(log + [c], b, age)
    ensures LastRead(log + [c], c, |log| + 1)
  {
  }

  lemma SameAge(log: seq<nat>, b: nat, c: nat, age: nat)
    requires LastRead(log, b, age) && LastRead(log, c, age)
    ensures b == c
  {
  }

  /** If the oldest of four slots is in use, three other blocks were read after its block. */
  lemma OldestHasThreeLater(s: seq<Slot>, log: seq<nat>, v: nat)
    requires |s| == SLOTS_IN_CACHE && v < |s| && s[v].no != 0 && Ordered(s, log) && NoTwins(s)
    requires forall i :: 0 <= i < |s| ==> s[v].age <= s[i].age
    ensures s[v].age <= |log| && |ReadSince(log, s[v].age)| >= 3 && s[v].no !in ReadSince(log, s[v].age)
  {
    var since := ReadSince(log, s[v].age);
    forall i | 0 <= i < |s| && i != v ensures s[i].no in since {
      assert s[i].no != 0;
      if s[i].age == s[v].age {
        SameAge(log, s[i].no, s[v].no, s[v].age);
        assert false;
      }
      assert log[s[i].age - 1] == s[i].no;
    }
    assert s[0].no != s[1].no && s[0].no != s[2].no && s[0].no != s[3].no && s[1].no != s[2].no && s[1].no != s[3].no
           && s[2].no != s[3].no;
    var others := {s[0].no, s[1].no, s[2].no, s[3].no} - {s[v].no};
    assert |{s[0].no, s[1].no, s[2].no, s[3].no}| == 4;
    assert others <= since;
    Smaller(others, since);
  }

  lemma {:induction false} Smaller<T>(a: set<T>, b: set<T>)
    requires a <= b
    ensures |a| <= |b|
  {
    if a != {} {
      var x :| x in a;
      Smaller(a - {x}, b - {x});
    }
  }

  class BlockCache {
    const cache: array<Slot>
    var lru: nat
    var disk: seq<Block>
    /** The successful reads since the counters were zero. */
    ghost var log: seq<nat>

    ghost predicate Valid()
      reads this, cache
    {
      cache.Length == SLOTS_IN_CACHE && Coherent(cache[..], disk)
    }

    /** The counters have run without a reset. */
    ghost predicate Counting()
      reads this, cache
    {
      Ordered(cache[..], log) && lru == |log|
    }

    /** The zeroed cache of the kernel's data segment. */
    constructor (d: seq<Block>)
      ensures Valid() && Counting() && disk == d && log == []
    {
      var c := new Slot[SLOTS_IN_CACHE](i => Slot(0, 0, ZERO_BLOCK));
      cache := c;
      lru := 0;
      disk := d;
      log := [];
    }

    /** The slot holding block b, or 4 (fs/ext2/block.c:52-57, 105-110). */
    method Find(b: nat) returns (i: nat)
      requires Valid() && b != 0
      ensures i <= SLOTS_IN_CACHE && (i < SLOTS_IN_CACHE ==> cache[i].no == b)
      ensures i == SLOTS_IN_CACHE ==> forall j :: 0 <= j < SLOTS_IN_CACHE ==> cache[j].no != b
    {
      i := 0;
      while i < SLOTS_IN_CACHE
        invariant i <= SLOTS_IN_CACHE && forall j :: 0 <= j < i ==> cache[j].no != b
      {
        if cache[i].no == b {
          return;
        }
        i := i + 1;
      }
    }

    /** The least recently used slot (fs/ext2/block.c:60-64). */
    method Oldest() returns (victim: nat)
      requires Valid()
      ensures victim < SLOTS_IN_CACHE && forall i :: 0 <= i < SLOTS_IN_CACHE ==> cache[victim].age <= cache[i].age
    {
      victim := 0;
      var i := 1;
      while i < SLOTS_IN_CACHE
        invariant 1 <= i <= SLOTS_IN_CACHE && victim < i && forall j :: 0 <= j < i ==> cache[victim].age <= cache[j].age
      {
        if cache[i].age < cache[victim].age {
          victim := i;
        }
        i := i + 1;
      }
    }

    /**
     * ext2_read_block (fs/ext2/block.c:41-80).  The disk delivers the first
     * `sectors` half-blocks and then fails; two or more mean success.
     */
    method ReadBlock(b: nat, sectors: nat) returns (ok: bool, data: Block)
      requires Valid()
      modifies this`lru, this`log, cache
      ensures Valid()
      ensures ok ==> 0 < b < |disk| && data == disk[b]
      ensures 0 < b < |disk| && sectors >= 2 ==> ok
      ensures old(Counting()) ==> Counting()
      ensures log == if ok then old(log) + [b] else old(log)
      ensures ok ==> exists i :: 0 <= i < SLOTS_IN_CACHE && cache[i].no == b
      ensures old(Counting()) ==> forall i :: 0 <= i < SLOTS_IN_CACHE ==> Stays(old(cache[..]), cache[..], old(log), i)
    {
      hide Ordered, ReadSince, NoTwins;
      ghost var before := cache[..];
      if b == 0 {
        return false, ZERO_BLOCK;
      }
      var i := Find(b);
      if i < SLOTS_IN_CACHE {
        assert before[i].no == b;
        lru := lru + 1;
        log := log + [b];
        cache[i] := cache[i].(age := lru);
        Touched(before, cache[..], disk, old(log), i, before[i].(age := lru));
        return true, cache[i].data;
      }
      var victim := Oldest();
      assert before[victim] == cache[victim];
      if old(Counting()) && before[victim].no != 0 {
        OldestHasThreeLater(before, log, victim);
      }
      if b >= |disk| || sectors < 2 {
        var part := if b < |disk| && sectors == 1 then disk[b][..512] + cache[victim].data[512..]
          else cache[victim].data;
        cache[victim] := Slot(0, cache[victim].age, part);
        Emptied(before, cache[..], disk, log, victim, part);
        return false, ZERO_BLOCK;
      }
      lru := lru + 1;
      log := log + [b];
      cache[victim] := Slot(b, lru, disk[b]);
      Touched(before, cache[..], disk, old(log), victim, Slot(b, lru, disk[b]));
      return true, cache[victim].data;
    }

    /** ext2_write_block (fs/ext2/block.c:82-112), the disk writes succeeding */
    method WriteBlock(b: nat, data: Block) returns (ok: bool)
      requires Valid()
      modifies this`disk, cache
      ensures Valid() && (ok <==> 0 < b < |old(disk)|)
      ensures disk == if ok then old(disk)[b := data] else old(disk)
      ensures old(Counting()) ==> Counting()
      ensures forall i :: 0 <= i < SLOTS_IN_CACHE ==>
                cache[i].no == old(cache[i].no) && cache[i].age == old(cache[i].age)
    {
      if b == 0 || b >= |disk| {
        return false;
      }
      var i := Find(b);
      ghost var before := cache[..];
      disk := disk[b := data];
      if i < SLOTS_IN_CACHE {
        cache[i] := cache[i].(data := data);
      }
      assert cache[..] == if i < SLOTS_IN_CACHE then before[i := before[i].(data := data)] else before;
      return true;
    }

    /** ext2_block_cache_flush (fs/ext2/block.c:34-39): the slots' own ages stay */
    method Flush()
      requires Valid()
      modifies this`lru, cache
      ensures Valid() && lru == 0
      ensures forall i :: 0 <= i < SLOTS_IN_CACHE ==> cache[i] == old(cache[i]).(no := 0)
    {
      var i := 0;
      while i < SLOTS_IN_CACHE
        invariant 0 <= i <= SLOTS_IN_CACHE
        invariant forall j :: 0 <= j < SLOTS_IN_CACHE ==>
                    cache[j] == if j < i then old(cache[j]).(no := 0) else old(cache[j])
      {
        cache[i] := cache[i].(no := 0);
        i := i + 1;
      }
      lru := 0;
    }

    /**
     * A write that goes to the disk behind the cache, as ext2_super_adjust_free
     * does (fs/ext2/super.c:146-167): coherent afterwards exactly when the block
     * is not cached (or did not change).
     */
    method WriteBehind(b: nat, data: Block)
      requires Valid() && 0 < b < |disk|
      modifies this`disk
      ensures disk == old(disk)[b := data]
      ensures Valid() <==> data == old(disk)[b] || forall i :: 0 <= i < SLOTS_IN_CACHE ==> cache[i].no != b
    {
      ghost var before := disk;
      disk := disk[b := data];
      if i :| 0 <= i < SLOTS_IN_CACHE && cache[i].no == b {
        assert cache[..][i].data == before[b];
      }
    }
  }

  /** If slot i lost its block, three others had been read since. */
  ghost predicate Stays(before: seq<Slot>, after: seq<Slot>, log: seq<nat>, i: nat)
    requires |before| == |after| == SLOTS_IN_CACHE && i < SLOTS_IN_CACHE
  {
    before[i].no != 0 && after[i].no != before[i].no ==> before[i].age <= |log| && |ReadSince(log, before[i].age)| >= 3
  }

  /** Slot i was read: it now holds the block with the newest age. */
  lemma Touched(s: seq<Slot>, t: seq<Slot>, disk: seq<Block>, log: seq<nat>, i: nat, slot: Slot)
    requires |s| == SLOTS_IN_CACHE && i < |s| && Coherent(s, disk) && t == s[i := slot]
    requires slot.no != 0 && slot.no < |disk| && slot.data == disk[slot.no]
    requires s[i].no == slot.no || forall j :: 0 <= j < |s| ==> s[j].no != slot.no
    ensures Coherent(t, disk)
    ensures Ordered(s, log) && slot.age == |log| + 1 ==> Ordered(t, log + [slot.no])
  {
    if Ordered(s, log) && slot.age == |log| + 1 {
      forall j | 0 <= j < |t| && t[j].no != 0 ensures LastRead(log + [slot.no], t[j].no, t[j].age) {
        LogGrows(log, t[j].no, slot.no, t[j].age);
      }
    }
  }

  /** The oldest slot was emptied by a failed read. */
  lemma Emptied(s: seq<Slot>, t: seq<Slot>, disk: seq<Block>, log: seq<nat>, i: nat, part: Block)
    requires |s| == SLOTS_IN_CACHE && i < |s| && Coherent(s, disk) && t == s[i := Slot(0, s[i].age, part)]
    requires forall j :: 0 <= j < |s| ==> s[i].age <= s[j].age
    ensures Coherent(t, disk)
    ensures Ordered(s, log) ==> Ordered(t, log)
  {
    if Ordered(s, log) {
      forall j | 0 <= j < |s| && j != i && s[j].no != 0 ensures s[i].age < s[j].age {
        if s[i].age == s[j].age && s[i].no != 0 {
          SameAge(log, s[i].no, s[j].no, s[i].age);
          assert false;
        }
      }
    }
  }
}
