/** The log directory as a map from file names to contents, and what rotation does to it. */
module LogDirectory {
  import opened LogNames
  import opened Options

  type Directory = map<string, string>

  /** MAX_lOG_SIZE is in KB. */
  const MAX_LOG_BYTES := 1024 * 1024
  const MAX_INFO_SIZE := 256

  function Lookup(d: Directory, name: string): Option<string> {
    if name in d then Some(d[name]) else None
  }

  function Remove(d: Directory, name: string): Directory {
    d - {name}
  }

  /** rename(2): replaces the target if there is one, and does nothing if the source is missing. */
  function Rename(d: Directory, oldName: string, newName: string): Directory {
    if oldName in d then (d - {oldName})[newName := d[oldName]] else d
  }

  predicate Has(d: Directory, i: nat) {
    LogFileName(i) in d
  }

  function Slot(d: Directory, i: nat): string {
    if Has(d, i) then d[LogFileName(i)] else ""
  }

  /** Slots n-1 down to 0, read one after the other: the oldest text first. */
  function OldestFirst(d: Directory, n: nat): string {
    if n == 0 then "" else Slot(d, n - 1) + OldestFirst(d, n - 1)
  }

  function Contents(d: Directory): string {
    OldestFirst(d, 10)
  }

  /** The renames hi -> hi+1, ..., lo -> lo+1 of the descending loop. */
  function ShiftRange(d: Directory, hi: int, lo: nat): Directory
    requires -1 <= hi
    decreases hi + 1
  {
    if hi < lo then d
    else ShiftRange(Rename(d, LogFileName(hi), LogFileName(hi + 1)), hi - 1, lo)
  }

  /** No rename of that loop replaces a file. */
  ghost predicate NothingReplaced(d: Directory, hi: int, lo: nat)
    requires -1 <= hi
    decreases hi + 1
  {
    hi < lo || (!Has(d, hi + 1) && NothingReplaced(Rename(d, LogFileName(hi), LogFileName(hi + 1)), hi - 1, lo))
  }

  ghost predicate SlotNames(name: string) {
    exists i :: 0 <= i < 10 && name == LogFileName(i)
  }

  /** `after` is `before` with slots lo..hi moved up by one and every other file as it was. */
  ghost predicate Shifted(before: Directory, after: Directory, hi: int, lo: nat)
    requires -1 <= hi <= 8
  {
    && (forall i: nat | lo <= i <= hi :: Lookup(after, LogFileName(i + 1)) == Lookup(before, LogFileName(i)))
    && (lo <= hi ==> !Has(after, lo))
    && (forall i: nat | i < lo || hi + 1 < i < 10 :: Lookup(after, LogFileName(i)) == Lookup(before, LogFileName(i)))
    && (hi < lo <= 9 ==> Lookup(after, LogFileName(lo)) == Lookup(before, LogFileName(lo)))
    && (forall name | !SlotNames(name) :: Lookup(after, name) == Lookup(before, name))
  }

  lemma AllSlotNamesDiffer()
    ensures forall i: nat, j: nat | i < 10 && j < 10 :: LogFileName(i) == LogFileName(j) ==> i == j
  {
    forall i: nat, j: nat | i < 10 && j < 10
      ensures LogFileName(i) == LogFileName(j) ==> i == j
    {
      SlotNamesDiffer(i, j);
    }
  }

  lemma RenameSlot(d: Directory, i: nat)
    requires i <= 8
    ensures Has(d, i) || !Has(d, i + 1) ==> Lookup(Rename(d, LogFileName(i), LogFileName(i + 1)), LogFileName(i + 1)) == Lookup(d, LogFileName(i))
    ensures !Has(Rename(d, LogFileName(i), LogFileName(i + 1)), i)
    ensures forall name | name != LogFileName(i) && name != LogFileName(i + 1) ::
              Lookup(Rename(d, LogFileName(i), LogFileName(i + 1)), name) == Lookup(d, name)
  {
    SlotNamesDiffer(i, i + 1);
  }

  /** The loop is an exact shift, holes included: every slot it covers moves up by
      one, nothing is replaced and nothing else is touched. */
  lemma {:induction false} ShiftRangeIsExact(d: Directory, hi: int, lo: nat)
    requires -1 <= hi <= 8 && !Has(d, hi + 1)
    ensures Shifted(d, ShiftRange(d, hi, lo), hi, lo)
    ensures NothingReplaced(d, hi, lo)
    decreases hi + 1
  {
    if lo <= hi {
      var d' := Rename(d, LogFileName(hi), LogFileName(hi + 1));
      RenameSlot(d, hi);
      ShiftRangeIsExact(d', hi - 1, lo);
      AllSlotNamesDiffer();
      var r := ShiftRange(d, hi, lo);
      forall i: nat | lo <= i <= hi
        ensures Lookup(r, LogFileName(i + 1)) == Lookup(d, LogFileName(i))
      {
        if i < hi {
          assert Lookup(r, LogFileName(i + 1)) == Lookup(d', LogFileName(i));
        }
      }
      if hi == lo {
        assert ShiftRange(d', hi - 1, lo) == d';
      }
      forall name | !SlotNames(name)
        ensures Lookup(r, name) == Lookup(d, name)
      {
        assert name != LogFileName(hi) && name != LogFileName(hi + 1);
      }
    }
  }

  lemma {:induction false} SameSlotsSameText(d: Directory, d': Directory, n: nat)
    requires forall i: nat | i < n :: Lookup(d, LogFileName(i)) == Lookup(d', LogFileName(i))
    ensures OldestFirst(d, n) == OldestFirst(d', n)
  {
    if n != 0 {
      SameSlotsSameText(d, d', n - 1);
      assert Lookup(d, LogFileName(n - 1)) == Lookup(d', LogFileName(n - 1));
    }
  }

  lemma MovedSlotText(d: Directory, d': Directory, i: nat)
    requires Slot(d, i + 1) == "" && Slot(d', i) == "" && Slot(d', i + 1) == Slot(d, i)
    requires OldestFirst(d, i) == OldestFirst(d', i)
    ensures OldestFirst(d, i + 2) == OldestFirst(d', i + 2)
  {
    hide Slot;
    var x, rest := Slot(d, i), OldestFirst(d, i);
    assert OldestFirst(d, i + 1) == x + rest && OldestFirst(d', i + 1) == "" + rest == rest;
    assert OldestFirst(d, i + 2) == "" + (x + rest) == x + rest;
  }

  /** Moving a slot into a free neighbour leaves the text read oldest first unchanged. */
  lemma {:induction false} RenameKeepsText(d: Directory, i: nat, n: nat)
    requires i <= 8 && !Has(d, i + 1) && i + 2 <= n <= 10
    ensures OldestFirst(Rename(d, LogFileName(i), LogFileName(i + 1)), n) == OldestFirst(d, n)
  {
    hide LogFileName;
    var d' := Rename(d, LogFileName(i), LogFileName(i + 1));
    RenameSlot(d, i);
    AllSlotNamesDiffer();
    if n == i + 2 {
      SameSlotsSameText(d, d', i);
      MovedSlotText(d, d', i);
    } else {
      RenameKeepsText(d, i, n - 1);
      assert Slot(d', n - 1) == Slot(d, n - 1) by {
        assert Lookup(d', LogFileName(n - 1)) == Lookup(d, LogFileName(n - 1));
      }
      hide Slot, Rename;
    }
  }

  /** The whole loop, stopped after any rename, keeps the text read oldest first. */
  lemma {:induction false} ShiftRangeKeepsText(d: Directory, hi: int, lo: nat)
    requires -1 <= hi <= 8 && !Has(d, hi + 1)
    ensures Contents(ShiftRange(d, hi, lo)) == Contents(d)
    decreases hi + 1
  {
    if lo <= hi {
      RenameKeepsText(d, hi, 10);
      RenameSlot(d, hi);
      ShiftRangeKeepsText(Rename(d, LogFileName(hi), LogFileName(hi + 1)), hi - 1, lo);
    }
  }

  /** Deleting the last slot drops exactly its text from the front. */
  lemma RemoveLastSlot(d: Directory)
    ensures Contents(d) == Slot(d, 9) + Contents(Remove(d, LogFileName(9)))
    ensures !Has(Remove(d, LogFileName(9)), 9)
    ensures forall name | name != LogFileName(9) :: Lookup(Remove(d, LogFileName(9)), name) == Lookup(d, name)
  {
    hide LogFileName;
    var d' := Remove(d, LogFileName(9));
    AllSlotNamesDiffer();
    forall i: nat | i < 9 ensures Lookup(d, LogFileName(i)) == Lookup(d', LogFileName(i)) {
      assert LogFileName(i) != LogFileName(9);
    }
    SameSlotsSameText(d, d', 9);
  }

  lemma Reassociate(a: string, b: string, c: string)
    ensures (a + b) + c == a + (b + c)
  {
  }

  /** Appending to slot 0 appends to the text read oldest first. */
  lemma {:induction false} AppendToSlotZero(d: Directory, text: string, n: nat)
    requires 1 <= n <= 10
    ensures OldestFirst(d[LogFileName(0) := Slot(d, 0) + text], n) == OldestFirst(d, n) + text
  {
    hide LogFileName;
    var d' := d[LogFileName(0) := Slot(d, 0) + text];
    if n == 1 {
      assert OldestFirst(d, 1) == Slot(d, 0) + OldestFirst(d, 0);
      assert OldestFirst(d', 1) == Slot(d', 0) + OldestFirst(d', 0);
    } else {
      AppendToSlotZero(d, text, n - 1);
      SlotNamesDiffer(0, n - 1);
      assert Slot(d', n - 1) == Slot(d, n - 1);
      hide Slot;
      Reassociate(Slot(d, n - 1), OldestFirst(d, n - 1), text);
    }
  }

  /** The highest slot below `n` that some name claims, or -1. */
  function TopClaim(names: set<string>, n: nat): int {
    if n == 0 then -1
    else if exists name | name in names :: Claims(name, n - 1) then n - 1
    else TopClaim(names, n - 1)
  }

  /** `top` is what scanning `names` must find, in whatever order they are listed. */
  ghost predicate IsTopClaim(names: set<string>, top: int) {
    && (top == -1 || exists name | name in names :: Claims(name, top))
    && (forall name, i | name in names && Claims(name, i) :: i <= top)
  }

  lemma {:induction false} TopClaimIsTop(names: set<string>, n: nat)
    requires n <= 10 && forall name, i | name in names && Claims(name, i) :: i < n
    ensures IsTopClaim(names, TopClaim(names, n)) && -1 <= TopClaim(names, n) < 10
  {
    if n != 0 && !(exists name | name in names :: Claims(name, n - 1)) {
      TopClaimIsTop(names, n - 1);
    }
  }

  lemma TopClaimUnique(names: set<string>, top: int)
    requires IsTopClaim(names, top) && -1 <= top
    ensures top == TopClaim(names, 10)
  {
    TopClaimIsTop(names, 10);
  }
}
