/** The rotating log of one task: `logs.txt` is slot 0, its archives are slots 1 to `backups`. Texts are octets. */
module LogRotation {
  import opened Bytes

  type Files = map<nat, Bytes>

  function Slot(files: Files, n: nat): Bytes {
    if n in files then files[n] else []
  }

  /** The slots from `n` down to 0 read one after the other: oldest text first. */
  function Joined(files: Files, n: nat): Bytes {
    Slot(files, n) + if n == 0 then [] else Joined(files, n - 1)
  }

  function Concat(blocks: seq<Bytes>): Bytes {
    if blocks == [] then [] else Concat(blocks[..|blocks| - 1]) + blocks[|blocks| - 1]
  }

  function Without(files: Files, n: nat): Files {
    map k | k in files && k != n :: files[k]
  }

  function Moved(files: Files, from: nat): Files
    requires from in files
  {
    Without(files, from)[from + 1 := files[from]]
  }

  /** Every slot one further up; what was in slot `backups` is gone. */
  ghost predicate Shifted(before: Files, after: Files, backups: nat) {
    && (forall n: nat :: (n in after <==> 1 <= n <= backups && n - 1 in before))
    && (forall n: nat | n in after :: after[n] == before[n - 1])
  }

  /** Halfway through: slots up to `index` are still where they were, slot `index + 1` is free, the others moved. */
  ghost predicate Shifting(before: Files, after: Files, backups: nat, index: nat) {
    && (forall n: nat | n <= index :: (n in after <==> n in before) && Slot(after, n) == Slot(before, n))
    && index + 1 !in after
    && (forall n: nat | n > index + 1 :: (n in after <==> n <= backups && n - 1 in before))
    && (forall n: nat | n > index + 1 && n in after :: after[n] == before[n - 1])
  }

  /** A file above the limit is a single text that one append wrote. */
  ghost predicate Capped(files: Files, maxBytes: nat, written: set<Bytes>) {
    forall n | n in files :: |files[n]| <= maxBytes || files[n] in written
  }

  /** No slot is left out, and two adjacent files always hold more than the limit. */
  ghost predicate Dense(files: Files, maxBytes: nat) {
    && (forall n | n in files && n > 0 :: n - 1 in files)
    && (forall n, m | n in files && m in files && m == n + 1 :: |files[n]| + |files[m]| > maxBytes)
  }

  lemma {:induction false} JoinedSame(files: Files, files': Files, n: nat)
    requires forall i | 0 <= i <= n :: Slot(files, i) == Slot(files', i)
    ensures Joined(files, n) == Joined(files', n)
  {
    if n > 0 {
      JoinedSame(files, files', n - 1);
    }
  }

  lemma {:induction false} JoinedEmpty(n: nat)
    ensures Joined(map[], n) == []
  {
    if n > 0 {
      JoinedEmpty(n - 1);
    }
  }

  lemma {:induction false} JoinedAppended(files: Files, text: Bytes, n: nat)
    ensures Joined(files[0 := Slot(files, 0) + text], n) == Joined(files, n) + text
  {
    if n > 0 {
      JoinedAppended(files, text, n - 1);
    }
  }

  /** Two sets of files that agree below slot `n`, where the second has nothing. */
  lemma {:induction false} JoinedBelow(files: Files, files': Files, n: nat)
    requires n !in files' && forall i | 0 <= i < n :: Slot(files, i) == Slot(files', i)
    ensures Joined(files, n) == Slot(files, n) + Joined(files', n)
  {
    if n > 0 {
      JoinedSame(files, files', n - 1);
    }
  }

  /** Removing an absent slot or the last one loses exactly what that slot holds, at the old end of the text. */
  lemma {:induction false} RemovedAtTop(files: Files, n: nat, backups: nat)
    requires n !in files || n == backups
    ensures Slot(files, n) + Joined(Without(files, n), backups) == Joined(files, backups)
  {
    if n == backups {
      JoinedBelow(files, Without(files, n), n);
    } else {
      assert Without(files, n) == files;
    }
  }

  /** Renaming a slot onto the next keeps the text, but for what the next one held. */
  lemma {:induction false} MovedUp(files: Files, from: nat, backups: nat)
    requires from in files && from < backups && (from + 1 !in files || from + 1 == backups)
    ensures Slot(files, from + 1) + Joined(Moved(files, from), backups) == Joined(files, backups)
  {
    if backups > from + 1 {
      MovedInside(files, from, backups);
      assert Slot(files, from + 1) == [];
    } else {
      MovedToTop(files, from);
    }
  }

  lemma {:induction false} MovedInside(files: Files, from: nat, n: nat)
    requires from in files && from < n && from + 1 !in files
    ensures Joined(Moved(files, from), n) == Joined(files, n)
  {
    if n > from + 1 {
      MovedInside(files, from, n - 1);
      assert Slot(Moved(files, from), n) == Slot(files, n);
    } else {
      MovedToTop(files, from);
    }
  }

  lemma {:induction false} MovedToTop(files: Files, from: nat)
    requires from in files
    ensures Joined(Moved(files, from), from + 1) == files[from] + Joined(Moved(files, from), from)
    ensures Joined(files, from + 1) == Slot(files, from + 1) + Joined(files, from)
    ensures Joined(files, from) == files[from] + Joined(Moved(files, from), from)
  {
    JoinedBelow(files, Moved(files, from), from);
  }

  lemma ShiftingStep(before: Files, files: Files, backups: nat, index: nat)
    requires 0 < index < backups && Shifting(before, files, backups, index)
    ensures Shifting(before, if index in files then Moved(files, index) else files, backups, index - 1)
  {
  }

  lemma ShiftingEnds(before: Files, files: Files, backups: nat)
    requires 0 < backups && Shifting(before, files, backups, 0) && 0 in files
    ensures Shifted(before, Moved(files, 0), backups)
  {
  }

  /** Half of the slots, rounded up to pairs, hold more than the limit each. */
  lemma {:induction false} DenseIsLong(files: Files, maxBytes: nat, n: nat)
    requires Dense(files, maxBytes) && n in files
    ensures |Joined(files, n)| >= (n + 1) / 2 * (maxBytes + 1)
  {
    if n > 0 {
      assert n - 1 in files && |files[n - 1]| + |files[n]| > maxBytes;
      assert Joined(files, n) == files[n] + Joined(files, n - 1);
    }
    if n > 1 {
      assert n - 2 in files;
      DenseIsLong(files, maxBytes, n - 2);
      PairAdds(n, maxBytes + 1);
      assert Joined(files, n - 1) == files[n - 1] + Joined(files, n - 2);
    }
  }

  /** Reading one slot more. */
  lemma {:induction false} ReadSlot(blocks: seq<Bytes>, files: Files, n: nat)
    ensures var more := if n in files then blocks + [files[n]] else blocks;
            Concat(blocks) + Joined(files, n) == Concat(more) + if n == 0 then [] else Joined(files, n - 1)
  {
    var rest := if n == 0 then [] else Joined(files, n - 1);
    if n in files {
      ConcatAppended(blocks, files[n], rest);
    } else {
      assert [] + rest == rest;
    }
  }

  lemma OneMoreEach(n: nat, k: nat)
    ensures n * (k + 1) == n * k + n
  {
  }

  lemma PairAdds(n: nat, k: nat)
    requires n > 1
    ensures (n + 1) / 2 * k == (n - 2 + 1) / 2 * k + k
  {
    assert (n + 1) / 2 == (n - 2 + 1) / 2 + 1;
  }

  lemma {:induction false} ConcatAppended(blocks: seq<Bytes>, block: Bytes, rest: Bytes)
    ensures Concat(blocks + [block]) + rest == Concat(blocks) + (block + rest)
  {
    assert (blocks + [block])[..|blocks|] == blocks;
  }

  lemma {:induction false} CappedIsShort(files: Files, maxBytes: nat, written: set<Bytes>, longest: nat, n: nat)
    requires Capped(files, maxBytes, written) && maxBytes <= longest && forall text | text in written ::
               |text| <= longest
    ensures |Joined(files, n)| <= (n + 1) * longest
  {
    if n > 0 {
      CappedIsShort(files, maxBytes, written, longest, n - 1);
      OneMoreEach(longest, n);
    }
  }

  lemma {:induction false} OnlySlotZero(files: Files, n: nat)
    ensures |Joined(files, n)| >= |Slot(files, 0)|
    ensures |Joined(files, n)| == |Slot(files, 0)| <==> forall i | 1 <= i <= n :: Slot(files, i) == []
  {
    if n > 0 {
      OnlySlotZero(files, n - 1);
    }
  }

  lemma Associative(a: Bytes, b: Bytes, c: Bytes)
    ensures a + b + c == a + (b + c)
  {
  }

  lemma CappedAfterAppend(files: Files, maxBytes: nat, written: set<Bytes>, text: Bytes)
    requires Capped(files, maxBytes, written) && (0 in files ==> |files[0]| + |text| <= maxBytes)
    ensures Capped(files[0 := Slot(files, 0) + text], maxBytes, written + {text})
  {
    assert [] + text == text;
  }

  lemma DenseAfterAppend(before: Files, gone: Bytes, after: Files, gone': Bytes, maxBytes: nat, backups: nat,
                         text: Bytes)
    requires Dense(before, maxBytes) && backups > 0 && (gone != [] ==> backups in before)
    requires || (after == before && gone' == gone && (0 in before ==> |before[0]| + |text| <= maxBytes))
             || (Shifted(before, after, backups) && gone' == gone + Slot(before, backups)
                 && 0 in before && |before[0]| + |text| > maxBytes)
    ensures Dense(after[0 := Slot(after, 0) + text], maxBytes) && (gone' != [] ==> backups in after)
  {
  }

  /** What the file system refuses during one append: the size query, the first removal, later removals and renames by
      slot, opening the log, and the write, of which `partial` octets are then in the file. */
  datatype Faults = Faults(stat: bool, evict: bool, remove: set<nat>, rename: set<nat>, open: bool, write: bool,
      partial: nat)

  const NO_FAULTS := Faults(false, false, {}, {}, false, false, 0)

  const DEFAULT_MAX_BYTES: nat := 10485760

  class TaskLog {
    const maxBytes: nat
    const backups: nat
    var files: Files
    var logSize: nat
    ghost var history: Bytes  // everything that was ever written to the log
    ghost var dropped: Bytes  // everything that rotations threw away
    ghost var written: set<Bytes>  // the texts that single appends wrote
    ghost var clean: bool  // no append met a fault so far

    ghost function Text(): Bytes
      reads this
    {
      Joined(files, backups)
    }

    /** The log refines an append-only text: what was thrown away and what is still there make up all that was
        written. */
    ghost predicate Refines()
      reads this
    {
      dropped + Text() == history && forall n | n in files :: n <= backups
    }

    ghost predicate Valid()
      reads this
    {
      && maxBytes > 0
      && Refines()
      && (backups > 0 ==> Capped(files, maxBytes, written))
      && (clean ==> logSize == |history|)
      && (clean && backups > 0 ==> Dense(files, maxBytes) && (dropped != [] ==> backups in files))
    }

    /** NewStoreWithOptions' defaults, and a task without a log. */
    constructor (maxBytes: int, backups: int)
      ensures Valid() && clean && files == map[] && history == []
      ensures this.maxBytes == if maxBytes <= 0 then DEFAULT_MAX_BYTES else maxBytes
      ensures this.backups == if backups < 0 then 0 else backups
    {
      this.maxBytes := if maxBytes <= 0 then DEFAULT_MAX_BYTES else maxBytes;
      this.backups := if backups < 0 then 0 else backups;
      files, logSize, history, dropped, written, clean := map[], 0, [], [], {}, true;
      new;
      JoinedEmpty(this.backups);
    }

    /** os.Remove of a slot that is absent or the last; the rotation ignores its result. */
    method Remove(n: nat, refused: bool)
      requires Refines() && (n !in files || n == backups)
      modifies this`files, this`dropped
      ensures Refines()
      ensures if refused || n !in old(files) then files == old(files) && dropped == old(dropped)
              else files == Without(old(files), n) && dropped == old(dropped) + old(files)[n]
      ensures old(Capped(files, maxBytes, written)) ==> Capped(files, maxBytes, written)
    {
      if !refused {
        RemovedAtTop(files, n, backups);
        ghost var gone := Slot(files, n);
        assert n !in files ==> Without(files, n) == files;
        files := Without(files, n);
        Associative(dropped, gone, Text());
        dropped := dropped + gone;
      }
    }

    /** os.Rename of a slot onto the next, which is absent or the last and then overwritten. */
    method Rename(from: nat, refused: bool) returns (ok: bool)
      requires Refines() && from < backups && (from + 1 !in files || from + 1 == backups)
      modifies this`files, this`dropped
      ensures Refines()
      ensures ok <==> from in old(files) && !refused
      ensures if !ok then files == old(files) && dropped == old(dropped)
              else files == Moved(old(files), from) && dropped == old(dropped) + old(Slot(files, from + 1))
      ensures old(Capped(files, maxBytes, written)) ==> Capped(files, maxBytes, written)
    {
      ok := from in files && !refused;
      if ok {
        MovedUp(files, from, backups);
        ghost var gone := Slot(files, from + 1);
        files := Moved(files, from);
        Associative(dropped, gone, Text());
        dropped := dropped + gone;
      }
    }

    predicate Rotates(incoming: nat)
      reads this
    {
      backups > 0 && 0 in files && |files[0]| + incoming > maxBytes
    }

    /** Between two steps of a rotation that began with `before` and `gone`: nothing but the last slot's text was thrown
        away, and the slot above `index` is free unless it is the last one and could not be removed. */
    ghost predicate Rotating(index: nat, before: Files, gone: Bytes)
      reads this
    {
      && Refines() && index < backups && 0 in files
      && (dropped == gone || dropped == gone + Slot(before, backups))
      && (index + 1 in files ==> index + 1 == backups && files == before && dropped == gone)
    }

    ghost predicate Smooth(index: nat, before: Files, gone: Bytes)
      reads this
    {
      Shifting(before, files, backups, index) && dropped == gone + Slot(before, backups)
    }

    /** One iteration of the rotation's loop. */
    method Advance(index: nat, f: Faults, ghost before: Files, ghost gone: Bytes) returns (ok: bool)
      requires 1 <= index && Rotating(index, before, gone)
      modifies this`files, this`dropped
      ensures Refines() && (old(Capped(files, maxBytes, written)) ==> Capped(files, maxBytes, written))
      ensures dropped == gone || dropped == gone + Slot(before, backups)
      ensures ok ==> Rotating(index - 1, before, gone)
      ensures f == NO_FAULTS ==> ok
      ensures f == NO_FAULTS && old(Smooth(index, before, gone)) ==> Smooth(index - 1, before, gone)
    {
      if f == NO_FAULTS && Smooth(index, before, gone) {
        ShiftingStep(before, files, backups, index);
      }
      Remove(index + 1, index + 1 in f.remove);
      ok := Rename(index, index in f.rename);
      ok := ok || index !in files;
    }

    /** Store.rotateLogIfNeeded. Whatever the file system refuses, at most the text of the last slot is thrown away and
        the rest keeps its order; without refusals every slot moves up by one. */
    method RotateIfNeeded(incoming: nat, f: Faults) returns (ok: bool)
      requires Refines() && maxBytes > 0
      modifies this`files, this`dropped
      ensures Refines() && (old(Capped(files, maxBytes, written)) ==> Capped(files, maxBytes, written))
      ensures dropped == old(dropped) || dropped == old(dropped) + old(Slot(files, backups))
      ensures !old(Rotates(incoming)) ==> files == old(files) && dropped == old(dropped)
      ensures ok ==> !Rotates(incoming)
      ensures ok && old(Rotates(incoming)) ==> 0 !in files
      ensures f == NO_FAULTS ==> ok
      ensures f == NO_FAULTS && old(Rotates(incoming)) ==>
                Shifted(old(files), files, backups) && dropped == old(dropped) + old(Slot(files, backups))
    {
      if maxBytes <= 0 || backups <= 0 {
        return true;
      }
      if f.stat {
        return false;
      }
      if 0 !in files || |files[0]| + incoming <= maxBytes {
        return true;
      }
      Remove(backups, f.evict);
      var index := backups - 1;
      while index >= 1
        invariant 0 <= index && Rotating(index, old(files), old(dropped))
        invariant old(Capped(files, maxBytes, written)) ==> Capped(files, maxBytes, written)
        invariant f == NO_FAULTS ==> Smooth(index, old(files), old(dropped))
      {
        ok := Advance(index, f, old(files), old(dropped));
        if !ok {
          return false;
        }
        index := index - 1;
      }
      Remove(1, 1 in f.remove);
      if f == NO_FAULTS {
        ShiftingEnds(old(files), files, backups);
      }
      ok := Rename(0, 0 in f.rename);
    }

    /** The rest of an append, once the log has room: opening it, creating it if there is none, and writing. */
    method Write(text: Bytes, f: Faults) returns (ok: bool)
      requires Refines() && (backups > 0 ==> Capped(files, maxBytes, written)) && !Rotates(|text|)
      modifies this`files, this`history, this`written, this`logSize
      ensures Refines() && (backups > 0 ==> Capped(files, maxBytes, written))
      ensures ok <==> !f.open && !f.write
      ensures ok ==> files == old(files)[0 := old(Slot(files, 0)) + text] && history == old(history) + text
      ensures logSize == old(logSize) + if ok then |text| else 0
      ensures !ok ==> history == old(history) || (f.write && history == old(history) + First(text, f.partial))
    {
      ok := !f.open && !f.write;
      if !f.open {
        var taken := if ok then text else First(text, f.partial);
        JoinedAppended(files, taken, backups);
        if backups > 0 {
          CappedAfterAppend(files, maxBytes, written, taken);
        }
        Associative(dropped, Text(), taken);
        files := files[0 := Slot(files, 0) + taken];
        history := history + taken;
        written := written + {taken};
      }
      if ok {
        logSize := logSize + |text|;
      }
    }

    /** Store.AppendLog on a known task. The text is appended, or nothing is, or, if the write itself fails, a part
        of it that the task's log size never counts. */
    method AppendLog(text: Bytes, f: Faults) returns (ok: bool)
      requires Valid()
      modifies this
      ensures Valid()
      ensures clean == (old(clean) && f == NO_FAULTS)
      ensures dropped == old(dropped) || dropped == old(dropped) + old(Slot(files, backups))
      ensures !old(Rotates(|text|)) ==> dropped == old(dropped)
      ensures ok ==> history == old(history) + text && logSize == old(logSize) + |text|
      ensures !ok ==> logSize == old(logSize)
      ensures !ok ==> history == old(history) || (f.write && history == old(history) + First(text, f.partial))
      ensures f == NO_FAULTS ==> ok
      ensures ok && old(Rotates(|text|)) ==> 0 in files && files[0] == text
    {
      clean := clean && f == NO_FAULTS;
      ok := RotateIfNeeded(|text|, f);
      if ok {
        if clean && backups > 0 {
          DenseAfterAppend(old(files), old(dropped), files, dropped, maxBytes, backups, text);
        }
        ok := Write(text, f);
      }
    }

    /** Store.Logs: the archives from the oldest down, then the log; a file that is there but cannot be read fails
        it. */
    method Logs(unreadable: set<nat>) returns (text: Bytes, ok: bool)
      requires Refines()
      ensures ok <==> forall n | 0 <= n <= backups :: n !in unreadable
      ensures ok ==> dropped + text == history
      ensures !ok ==> text == []
    {
      text, ok := ReadSlots(files, backups, unreadable);
    }

    static method ReadSlots(files: Files, backups: nat, unreadable: set<nat>) returns (text: Bytes, ok: bool)
      ensures ok <==> forall n | 0 <= n <= backups :: n !in unreadable
      ensures text == if ok then Joined(files, backups) else []
    {
      var blocks: seq<Bytes> := [];
      var index := backups;
      assert Concat(blocks) + Joined(files, backups) == Joined(files, backups);
      while index >= 1
        invariant 0 <= index <= backups
        invariant forall n | index < n <= backups :: n !in unreadable
        invariant Concat(blocks) + Joined(files, index) == Joined(files, backups)
      {
        if index in unreadable {
          return [], false;
        }
        ReadSlot(blocks, files, index);
        if index in files {
          blocks := blocks + [files[index]];
        }
        index := index - 1;
      }
      if 0 in unreadable {
        return [], false;
      }
      ReadSlot(blocks, files, 0);
      if 0 in files {
        blocks := blocks + [files[0]];
      }
      return Concat(blocks), true;
    }

    /** As long as no append failed: once anything was thrown away, what is left is longer than half the slots'
        limit. */
    lemma RetainedIsLong()
      requires Valid() && clean && backups > 0 && dropped != []
      ensures |Text()| > (backups + 1) / 2 * maxBytes
    {
      DenseIsLong(files, maxBytes, backups);
      OneMoreEach((backups + 1) / 2, maxBytes);
    }

    /** Whatever failed: what is left is at most as long as all slots' limit, if no longer text was ever written. */
    lemma RetainedIsBounded(longest: nat)
      requires Valid() && backups > 0 && maxBytes <= longest && forall text | text in written :: |text| <= longest
      ensures |Text()| <= (backups + 1) * longest
    {
      CappedIsShort(files, maxBytes, written, longest, backups);
    }

    /** readTask replaces the size by that of `logs.txt` alone. This is the size before the restart only as long as
        nothing was thrown away and no archive holds anything. */
    lemma ReloadedSizeIsPartial()
      requires Valid() && clean && 0 in files
      ensures |files[0]| <= logSize
      ensures |files[0]| == logSize <==> dropped == [] && forall n | 1 <= n <= backups :: Slot(files, n) == []
    {
      OnlySlotZero(files, backups);
    }
  }
}
