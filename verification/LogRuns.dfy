/** Whole runs of the log: any sequence of writes, restarts and process deaths in the
    middle of a rotation, from any directory. */
module LogRuns {
  import opened LogNames
  import opened LogDirectory
  import opened LogStore

  datatype Event =
    | Write(header: string, body: string)
    | Restart
      // The process dies in the rotation that a write of `len` bytes starts: slot 9 is gone if
      // it had to go, the renames down to slot `lo` are done, slot 0 is not reopened; then restart.
    | DieInRotation(len: nat, lo: nat)

  function Step(s: Store, e: Event): Store
    requires Valid(s)
  {
    match e
    case Write(header, body) => Written(s, header, body)
    case Restart => Started(s.files)
    case DieInRotation(len, lo) =>
      RoomIsMade(s);
      if NeedsRotation(s, len) then Started(ShiftRange(DropOldest(s).files, DropOldest(s).sign, lo))
      else Started(s.files)
  }

  /** The text of the slot-9 file that the step deletes, if it deletes one. */
  function DroppedText(s: Store, e: Event): string {
    match e
    case Write(_, body) => DroppedByWrite(s, |body|)
    case Restart => ""
    case DieInRotation(len, _) => DroppedByWrite(s, len)
  }

  /** What a write adds: its header and up to 255 characters of its body. */
  function WrittenText(e: Event): string {
    if e.Write? then e.header + e.body[..if |e.body| < 256 then |e.body| else 255] else ""
  }

  lemma StepKeepsValid(s: Store, e: Event)
    requires Valid(s)
    ensures Valid(Step(s, e))
  {
    match e
    case Write(header, body) => WriteKeepsValid(s, header, body);
    case Restart => StartedIsValid(s.files);
    case DieInRotation(len, lo) =>
      RoomIsMade(s);
      StartedIsValid(ShiftRange(DropOldest(s).files, DropOldest(s).sign, lo));
      StartedIsValid(s.files);
  }

  function Run(s: Store, events: seq<Event>): Store
    requires Valid(s)
    decreases events
  {
    if events == [] then s
    else (StepKeepsValid(s, events[0]); Run(Step(s, events[0]), events[1..]))
  }

  /** Everything written in a run, in order. */
  function History(events: seq<Event>): string {
    if events == [] then "" else WrittenText(events[0]) + History(events[1..])
  }

  /** The deleted slot-9 files of a run, in the order of their deletion. */
  function Lost(s: Store, events: seq<Event>): string
    requires Valid(s)
    decreases events
  {
    if events == [] then ""
    else (StepKeepsValid(s, events[0]); DroppedText(s, events[0]) + Lost(Step(s, events[0]), events[1..]))
  }

  lemma StepAccounts(s: Store, e: Event)
    requires Valid(s)
    ensures Contents(s.files) + WrittenText(e) == DroppedText(s, e) + Contents(Step(s, e).files)
  {
    hide Contents;
    match e
    case Write(header, body) => WriteAppends(s, header, body);
    case Restart => StartedIsValid(s.files);
    case DieInRotation(len, lo) =>
      if NeedsRotation(s, len) {
        var room := DropOldest(s);
        RoomIsMade(s);
        ShiftRangeKeepsText(room.files, room.sign, lo);
        StartedIsValid(ShiftRange(room.files, room.sign, lo));
      } else {
        StartedIsValid(s.files);
      }
  }

  /** History refinement: in every run from every store, what was there plus everything
      written is exactly the deleted slot-9 files followed by the slots read oldest first. */
  lemma {:induction false} HistoryRefinement(s: Store, events: seq<Event>)
    requires Valid(s)
    ensures Valid(Run(s, events))
    ensures Contents(s.files) + History(events) == Lost(s, events) + Contents(Run(s, events).files)
    decreases events
  {
    hide Contents;
    if events == [] {
      assert Contents(s.files) + "" == "" + Contents(s.files);
    } else {
      var e, rest := events[0], events[1..];
      var s' := Step(s, e);
      StepKeepsValid(s, e);
      StepAccounts(s, e);
      HistoryRefinement(s', rest);
      Reassociate(Contents(s.files), WrittenText(e), History(rest));
      Reassociate(DroppedText(s, e), Contents(s'.files), History(rest));
      Reassociate(DroppedText(s, e), Lost(s', rest), Contents(Run(s', rest).files));
    }
  }

  /** From an empty directory the slots always hold the end of the history. */
  lemma SuffixOfHistory(events: seq<Event>)
    ensures Valid(Started(map[]))
    ensures var s := Started(map[]);
            && |Lost(s, events)| <= |History(events)|
            && Lost(s, events) == History(events)[..|Lost(s, events)|]
            && Contents(Run(s, events).files) == History(events)[|Lost(s, events)|..]
  {
    StartedIsValid(map[]);
    NoSlotsNoText(map[], 10);
    var s := Started(map[]);
    HistoryRefinement(s, events);
    assert Contents(s.files) + History(events) == History(events);
  }

  lemma {:induction false} NoSlotsNoText(d: Directory, n: nat)
    requires forall i: nat | i < n :: !Has(d, i)
    ensures OldestFirst(d, n) == ""
  {
    if n != 0 { NoSlotsNoText(d, n - 1); assert !Has(d, n - 1); }
  }

  // ---------------------------------------------------------------- size of the slots

  ghost predicate SlotsAtMost(d: Directory, bound: int) {
    forall i: nat | i < 10 :: |Slot(d, i)| <= bound
  }

  ghost predicate HeadersAtMost(events: seq<Event>, h: nat) {
    forall e | e in events && e.Write? :: |e.header| <= h
  }

  lemma SlotByLookup(d: Directory, i: nat, d': Directory, j: nat)
    requires Lookup(d, LogFileName(i)) == Lookup(d', LogFileName(j))
    ensures Slot(d, i) == Slot(d', j) && Has(d, i) == Has(d', j)
  {
  }

  lemma StartedKeepsSlots(d: Directory)
    ensures forall i: nat | i < 10 :: Slot(Started(d).files, i) == Slot(d, i)
    ensures forall i: nat | 1 <= i < 10 :: Has(Started(d).files, i) == Has(d, i)
  {
    hide LogFileName;
    AllSlotNamesDiffer();
  }

  /** After any number of the renames, every slot holds the text of the same or the next lower slot. */
  lemma PartShiftMovesSlots(d: Directory, hi: int, lo: nat, i: nat)
    requires -1 <= hi <= 8 && !Has(d, hi + 1) && i < 10
    requires forall j: nat | hi < j < 10 :: !Has(d, j)
    ensures var r := ShiftRange(d, hi, lo);
            || !Has(r, i)
            || (Slot(r, i) == Slot(d, i) && Has(d, i))
            || (i > 0 && Slot(r, i) == Slot(d, i - 1) && Has(d, i - 1))
  {
    hide LogFileName;
    ShiftRangeIsExact(d, hi, lo);
    var r := ShiftRange(d, hi, lo);
    if lo < i <= hi + 1 {
      var j: nat := i - 1;
      SlotByLookup(r, j + 1, d, j);
    } else if i < lo || hi + 1 < i {
      SlotByLookup(r, i, d, i);
    }
  }

  lemma StepBoundsSlots(s: Store, e: Event, h: nat)
    requires Valid(s) && SlotsAtMost(s.files, MAX_LOG_BYTES + h)
    requires e.Write? ==> |e.header| <= h
    ensures SlotsAtMost(Step(s, e).files, MAX_LOG_BYTES + h)
  {
    hide LogFileName;
    AllSlotNamesDiffer();
    match e
    case Write(header, body) =>
      WrittenSlots(s, header, body);
      CheckedSlots(s, |body|);
      var t, w := SizeChecked(s, |body|), Written(s, header, body);
      forall i: nat | i < 10 ensures |Slot(w.files, i)| <= MAX_LOG_BYTES + h {
        if i > 0 {
          SlotByLookup(w.files, i, t.files, i);
          if NeedsRotation(s, |body|) { SlotByLookup(t.files, i, s.files, i - 1); }
        }
      }
    case Restart => StartedKeepsSlots(s.files);
    case DieInRotation(len, lo) =>
      var room := DropOldest(s);
      RoomIsMade(s);
      var cut := ShiftRange(room.files, room.sign, lo);
      StartedKeepsSlots(s.files);
      StartedKeepsSlots(cut);
      forall i: nat | i < 10 ensures |Slot(cut, i)| <= MAX_LOG_BYTES + h {
        PartShiftMovesSlots(room.files, room.sign, lo, i);
        forall j: nat | j < 9 ensures Slot(room.files, j) == Slot(s.files, j) {
          SlotByLookup(room.files, j, s.files, j);
        }
      }
  }

  /** Size bound: whatever the bodies, no slot ever exceeds the limit by more than one header. */
  lemma {:induction false} SizeBound(s: Store, events: seq<Event>, h: nat)
    requires Valid(s) && SlotsAtMost(s.files, MAX_LOG_BYTES + h) && HeadersAtMost(events, h)
    ensures SlotsAtMost(Run(s, events).files, MAX_LOG_BYTES + h)
    decreases events
  {
    if events != [] {
      StepKeepsValid(s, events[0]);
      StepBoundsSlots(s, events[0], h);
      SizeBound(Step(s, events[0]), events[1..], h);
    }
  }

  function Text(n: nat): (t: string)
    ensures |t| == n
  {
    seq(n, _ => 'x')
  }

  ghost predicate HeadersExactly(events: seq<Event>, h: nat) {
    forall e | e in events && e.Write? :: |e.header| == h
  }

  /** `n` writes of a header of `h` bytes and no body. */
  function Headers(h: nat, n: nat): seq<Event> {
    seq(n, _ => Write(Text(h), ""))
  }

  lemma {:induction false} SmallWritesFill(s: Store, h: nat, n: nat)
    requires Valid(s)
    requires |Slot(s.files, 0)| + n * h <= MAX_LOG_BYTES + h
    ensures |Slot(Run(s, Headers(h, n)).files, 0)| == |Slot(s.files, 0)| + n * h
    decreases n
  {
    if n != 0 {
      var events := Headers(h, n);
      StepKeepsValid(s, events[0]);
      assert n * h == (n - 1) * h + h;
      assert (n - 1) * h >= 0;
      assert Line(Text(h), "") == Text(h);
      assert !NeedsRotation(s, 0);
      assert events[1..] == Headers(h, n - 1);
      SmallWritesFill(Step(s, events[0]), h, n - 1);
    }
  }

  /** One write of `first`, then headers of `h` bytes up to the limit, then one more. */
  lemma FirstThenHeadersReach(first: Event, h: nat)
    requires 1 <= h && first.Write? && |first.body| < MAX_INFO_SIZE
    requires |first.header| + |first.body| + (MAX_LOG_BYTES / h) * h == MAX_LOG_BYTES
          || |first.header| + |first.body| + (MAX_LOG_BYTES / h) * h == MAX_LOG_BYTES + h
    ensures Valid(Started(map[]))
    ensures exists n :: |Slot(Run(Started(map[]), [first] + Headers(h, n)).files, 0)| == MAX_LOG_BYTES + h
  {
    StartedIsValid(map[]);
    var s := Started(map[]);
    var line := Line(first.header, first.body);
    var k := MAX_LOG_BYTES / h;
    var n := if |line| + k * h == MAX_LOG_BYTES then k + 1 else k;
    assert |line| + n * h == MAX_LOG_BYTES + h by {
      assert (k + 1) * h == k * h + h;
    }
    var events := [first] + Headers(h, n);
    StepKeepsValid(s, first);
    assert events[1..] == Headers(h, n);
    SmallWritesFill(Step(s, first), h, n);
  }

  /** The header slack is real: for every h some run with headers of at most h bytes reaches the bound
      exactly, and as far as headers fit their buffer all of them can have exactly h bytes. */
  lemma SizeBoundIsReached(h: nat)
    requires 1 <= h
    ensures Valid(Started(map[]))
    ensures exists events ::
              && HeadersAtMost(events, h) && (h <= MAX_INFO_SIZE ==> HeadersExactly(events, h))
              && |Slot(Run(Started(map[]), events).files, 0)| == MAX_LOG_BYTES + h
  {
    var rest := MAX_LOG_BYTES % h;
    assert rest + (MAX_LOG_BYTES / h) * h == MAX_LOG_BYTES;
    var first := if h <= MAX_INFO_SIZE then Write(Text(h), Text(rest)) else Write(Text(rest), "");
    FirstThenHeadersReach(first, h);
    var n :| |Slot(Run(Started(map[]), [first] + Headers(h, n)).files, 0)| == MAX_LOG_BYTES + h;
    var events := [first] + Headers(h, n);
    assert HeadersAtMost(events, h);
    assert h <= MAX_INFO_SIZE ==> HeadersExactly(events, h);
  }

  // ---------------------------------------------------------------- retention and recovery

  /** Every slot up to `sign` exists. */
  ghost predicate Dense(s: Store) {
    forall i: nat | i <= s.sign :: Has(s.files, i)
  }

  /** Names that the scan takes for a slot are slot names. */
  ghost predicate NoStrayNames(d: Directory) {
    forall name, i | name in d && Claims(name, i) :: name == LogFileName(i)
  }

  /** Slots that have been rotated out each hold more than `least` bytes. */
  ghost predicate RotatedOutHold(d: Directory, least: int) {
    forall i: nat | 1 <= i < 10 && Has(d, i) :: |Slot(d, i)| > least
  }

  predicate Orderly(events: seq<Event>) {
    forall e | e in events :: !e.DieInRotation?
  }

  predicate EventAtMost(e: Event, l: nat) {
    match e
    case Write(_, body) => |body| <= l
    case Restart => true
    case DieInRotation(len, _) => len <= l
  }

  ghost predicate BodiesAtMost(events: seq<Event>, l: nat) {
    forall e | e in events :: EventAtMost(e, l)
  }

  /** The number of times a run deletes slot 9. */
  function Deletions(s: Store, events: seq<Event>): nat
    requires Valid(s)
    decreases events
  {
    if events == [] then 0
    else
      StepKeepsValid(s, events[0]);
      (if s.sign == 9 && events[0].Write? && NeedsRotation(s, |events[0].body|) then 1 else 0)
      + Deletions(Step(s, events[0]), events[1..])
  }

  lemma WriteAddsOnlySlots(s: Store, header: string, body: string)
    requires Valid(s)
    ensures forall name | name in Written(s, header, body).files :: SlotNames(name) || name in s.files
  {
    hide LogFileName;
    var t, w := SizeChecked(s, |body|), Written(s, header, body);
    RotationIsExactShift(s);
    forall name | name in w.files && !SlotNames(name) ensures name in s.files {
      assert name != LogFileName(0);
      assert Lookup(w.files, name) == Lookup(t.files, name) == Lookup(s.files, name);
    }
  }

  lemma WriteKeepsNames(s: Store, header: string, body: string)
    requires Valid(s) && NoStrayNames(s.files)
    ensures NoStrayNames(Written(s, header, body).files)
  {
    hide LogFileName, Written;
    WriteAddsOnlySlots(s, header, body);
    forall name, i | name in Written(s, header, body).files && Claims(name, i) ensures name == LogFileName(i) {
      if name !in s.files {
        var j :| 0 <= j < 10 && name == LogFileName(j);
        SlotNamesDiffer(j, i);
      }
    }
  }

  /** Recovery: without stray names a restart returns to the same state exactly when the
      slot that `sign` points at exists. */
  lemma RestartIsIdentityIff(s: Store)
    requires Valid(s) && NoStrayNames(s.files)
    ensures Started(s.files) == s <==> Has(s.files, s.sign)
  {
    hide LogFileName;
    TopClaimIsTop(s.files.Keys, 10);
    var top := TopClaim(s.files.Keys, 10);
    SlotNamesDiffer(0, 0);
    assert Claims(LogFileName(0), 0);
    assert LogFileName(0) in s.files.Keys;
    assert top >= 0;
    var name :| name in s.files.Keys && Claims(name, top);
    assert Has(s.files, top);
    if Has(s.files, s.sign) {
      SlotNamesDiffer(s.sign, s.sign);
      assert LogFileName(s.sign) in s.files.Keys && Claims(LogFileName(s.sign), s.sign);
    }
  }

  lemma WriteKeepsDense(s: Store, header: string, body: string)
    requires Valid(s) && Dense(s)
    ensures Dense(Written(s, header, body))
    ensures Written(s, header, body).sign >= s.sign
  {
    hide LogFileName, Written, SizeChecked;
    WrittenSlots(s, header, body);
    CheckedSlots(s, |body|);
    WriteKeepsValid(s, header, body);
    var t, w := SizeChecked(s, |body|), Written(s, header, body);
    forall i: nat | i <= w.sign ensures Has(w.files, i) {
      if i > 0 {
        SlotByLookup(w.files, i, t.files, i);
        if NeedsRotation(s, |body|) { SlotByLookup(t.files, i, s.files, i - 1); }
      }
    }
  }

  lemma WriteKeepsRetention(s: Store, header: string, body: string, l: nat)
    requires Valid(s) && RotatedOutHold(s.files, MAX_LOG_BYTES - l) && |body| <= l
    ensures RotatedOutHold(Written(s, header, body).files, MAX_LOG_BYTES - l)
  {
    hide LogFileName, Written, SizeChecked;
    WrittenSlots(s, header, body);
    CheckedSlots(s, |body|);
    var t, w := SizeChecked(s, |body|), Written(s, header, body);
    forall i: nat | 1 <= i < 10 && Has(w.files, i) ensures |Slot(w.files, i)| > MAX_LOG_BYTES - l {
      SlotByLookup(w.files, i, t.files, i);
      if NeedsRotation(s, |body|) { SlotByLookup(t.files, i, s.files, i - 1); }
    }
  }

  lemma OrderlyStep(s: Store, e: Event)
    requires Valid(s) && Dense(s) && NoStrayNames(s.files) && !e.DieInRotation?
    ensures Valid(Step(s, e)) && Dense(Step(s, e)) && NoStrayNames(Step(s, e).files)
    ensures Step(s, e).sign >= s.sign
  {
    hide LogFileName, Written, Started;
    StepKeepsValid(s, e);
    if e.Write? {
      WriteKeepsNames(s, e.header, e.body);
      WriteKeepsDense(s, e.header, e.body);
    } else {
      RestartIsIdentityIff(s);
    }
  }

  /** In runs without a death in the middle of a rotation, `sign` is at every moment the
      number of the highest file, so every restart finds it again. */
  lemma {:induction false} RestartRestoresSign(s: Store, events: seq<Event>)
    requires Valid(s) && Dense(s) && NoStrayNames(s.files) && Orderly(events)
    ensures Valid(Run(s, events)) && Dense(Run(s, events)) && NoStrayNames(Run(s, events).files)
    ensures Started(Run(s, events).files) == Run(s, events)
    ensures Run(s, events).sign >= s.sign
    decreases events
  {
    hide LogFileName, Step, Started;
    if events == [] {
      RestartIsIdentityIff(s);
    } else {
      OrderlyStep(s, events[0]);
      RestartRestoresSign(Step(s, events[0]), events[1..]);
    }
  }

  lemma StepKeepsRetention(s: Store, e: Event, l: nat)
    requires Valid(s) && RotatedOutHold(s.files, MAX_LOG_BYTES - l) && EventAtMost(e, l)
    ensures RotatedOutHold(Step(s, e).files, MAX_LOG_BYTES - l)
  {
    hide LogFileName;
    match e
    case Write(header, body) => WriteKeepsRetention(s, header, body, l);
    case Restart => StartedKeepsSlots(s.files);
    case DieInRotation(len, lo) =>
      StartedKeepsSlots(s.files);
      if NeedsRotation(s, len) {
        DeathKeepsRetention(s, len, lo, l);
        StartedKeepsSlots(ShiftRange(DropOldest(s).files, DropOldest(s).sign, lo));
      }
  }

  lemma DeathKeepsRetention(s: Store, len: nat, lo: nat, l: nat)
    requires Valid(s) && RotatedOutHold(s.files, MAX_LOG_BYTES - l) && len <= l && NeedsRotation(s, len)
    requires DropOldest(s).sign >= -1
    ensures RotatedOutHold(ShiftRange(DropOldest(s).files, DropOldest(s).sign, lo), MAX_LOG_BYTES - l)
  {
    hide LogFileName, ShiftRange;
    var room := DropOldest(s);
    RoomIsMade(s);
    var cut := ShiftRange(room.files, room.sign, lo);
    forall i: nat | 1 <= i < 10 && Has(cut, i) ensures |Slot(cut, i)| > MAX_LOG_BYTES - l {
      PartShiftMovesSlots(room.files, room.sign, lo, i);
      forall j: nat | j < 9 ensures Slot(room.files, j) == Slot(s.files, j) && Has(room.files, j) == Has(s.files, j) {
        SlotByLookup(room.files, j, s.files, j);
      }
      assert !Has(room.files, 9);
    }
  }

  /** Retention of size: in every run, deaths included, whatever has been rotated out and is still
      there holds more than the limit less one body. */
  lemma {:induction false} RotatedOutSlotsAreFull(s: Store, events: seq<Event>, l: nat)
    requires Valid(s) && RotatedOutHold(s.files, MAX_LOG_BYTES - l) && BodiesAtMost(events, l)
    ensures RotatedOutHold(Run(s, events).files, MAX_LOG_BYTES - l)
    decreases events
  {
    hide LogFileName, Step, RotatedOutHold, EventAtMost;
    if events != [] {
      StepKeepsValid(s, events[0]);
      StepKeepsRetention(s, events[0], l);
      RotatedOutSlotsAreFull(Step(s, events[0]), events[1..], l);
    }
  }

  /** Retention of number: in runs without a death in the middle of a rotation, once anything has
      been deleted all ten slots exist. */
  lemma {:induction false} AfterDeletionAllSlotsExist(s: Store, events: seq<Event>)
    requires Valid(s) && Dense(s) && NoStrayNames(s.files) && Orderly(events)
    ensures Deletions(s, events) > 0 ==> forall i: nat | i < 10 :: Has(Run(s, events).files, i)
    decreases events
  {
    hide LogFileName, Step;
    RestartRestoresSign(s, events);
    if events != [] {
      OrderlyStep(s, events[0]);
      AfterDeletionAllSlotsExist(Step(s, events[0]), events[1..]);
      RestartRestoresSign(Step(s, events[0]), events[1..]);
    }
  }

  /** Which slots a death leaves: those moved, those not reached, and an empty one between them. */
  lemma SlotsAfterDeath(s: Store, len: nat, lo: nat, i: nat)
    requires Valid(s) && Dense(s) && NeedsRotation(s, len) && i < 10
    ensures Has(Step(s, DieInRotation(len, lo)).files, i)
       <==> var hi := DropOldest(s).sign; i == 0 || if lo <= hi then i <= hi + 1 && i != lo else i <= hi
  {
    hide LogFileName, ShiftRange;
    var room := DropOldest(s);
    RoomIsMade(s);
    var hi := room.sign;
    ShiftRangeIsExact(room.files, hi, lo);
    var cut := ShiftRange(room.files, hi, lo);
    StartedKeepsSlots(cut);
    StartedIsValid(cut);
    if i > 0 {
      if lo < i <= hi + 1 {
        var j: nat := i - 1;
        SlotByLookup(cut, j + 1, room.files, j);
        SlotByLookup(room.files, j, s.files, j);
        assert Has(s.files, j);
      } else if i != lo {
        SlotByLookup(cut, i, room.files, i);
        if i < 9 { SlotByLookup(room.files, i, s.files, i); }
        if i <= hi { assert Has(s.files, i); } else { assert !Has(room.files, i); }
      } else if hi < lo {
        SlotByLookup(cut, lo, room.files, lo);
        assert !Has(room.files, i);
      }
    }
  }

  /** A death leaves a hole exactly when it falls between the first rename and the one of slot 0. */
  lemma DeathLeavesHoleIff(s: Store, len: nat, lo: nat)
    requires Valid(s) && Dense(s) && NoStrayNames(s.files)
    ensures !Dense(Step(s, DieInRotation(len, lo)))
       <==> NeedsRotation(s, len) && 1 <= lo <= DropOldest(s).sign
  {
    hide LogFileName, ShiftRange;
    if NeedsRotation(s, len) {
      var room := DropOldest(s);
      RoomIsMade(s);
      var cut := ShiftRange(room.files, room.sign, lo);
      StartedIsValid(cut);
      var t := Step(s, DieInRotation(len, lo));
      forall i: nat | i < 10
        ensures Has(t.files, i) <==> i == 0 || if lo <= room.sign then i <= room.sign + 1 && i != lo else i <= room.sign
      {
        SlotsAfterDeath(s, len, lo, i);
      }
      DeathKeepsNames(s, lo);
      SignIsTopSlot(cut);
      assert Has(t.files, t.sign);
      if 1 <= lo <= room.sign {
        var top: nat := room.sign + 1;
        assert Has(t.files, top);
        assert !Has(t.files, lo) && lo <= t.sign;
      } else {
        forall i: nat | i <= t.sign ensures Has(t.files, i) {
        }
      }
    } else {
      RestartIsIdentityIff(s);
    }
  }

  lemma DeathAddsOnlySlots(s: Store, lo: nat)
    requires Valid(s) && -1 <= DropOldest(s).sign
    ensures forall name | name in ShiftRange(DropOldest(s).files, DropOldest(s).sign, lo) :: SlotNames(name) || name in s.files
  {
    hide LogFileName, ShiftRange;
    var room := DropOldest(s);
    RoomIsMade(s);
    ShiftRangeIsExact(room.files, room.sign, lo);
    var cut := ShiftRange(room.files, room.sign, lo);
    forall name | name in cut && !SlotNames(name) ensures name in s.files {
      assert Lookup(cut, name) == Lookup(room.files, name) == Lookup(s.files, name);
    }
  }

  lemma DeathKeepsNames(s: Store, lo: nat)
    requires Valid(s) && NoStrayNames(s.files) && -1 <= DropOldest(s).sign
    ensures NoStrayNames(ShiftRange(DropOldest(s).files, DropOldest(s).sign, lo))
  {
    hide LogFileName, ShiftRange;
    DeathAddsOnlySlots(s, lo);
    forall name, i | name in ShiftRange(DropOldest(s).files, DropOldest(s).sign, lo) && Claims(name, i)
      ensures name == LogFileName(i)
    {
      if name !in s.files {
        var j :| 0 <= j < 10 && name == LogFileName(j);
        SlotNamesDiffer(j, i);
      }
    }
  }

  /** Without stray names a started store points at its highest slot. */
  lemma SignIsTopSlot(d: Directory)
    requires NoStrayNames(d)
    ensures 0 <= Started(d).sign <= 9 && Has(Started(d).files, Started(d).sign)
  {
    hide LogFileName;
    TopClaimIsTop(d.Keys, 10);
    var top := TopClaim(d.Keys, 10);
    if top >= 0 {
      var name :| name in d.Keys && Claims(name, top);
      assert Has(d, top);
    }
  }

  lemma EmptyStart(least: int)
    ensures var s := Started(map[]);
            Valid(s) && Dense(s) && NoStrayNames(s.files) && RotatedOutHold(s.files, least)
  {
    hide LogFileName;
    StartedIsValid(map[]);
    var s := Started(map[]);
    TopClaimIsTop({}, 10);
    assert s.files == map[LogFileName(0) := ""] && s.sign == 0;
    forall name, i | name in s.files && Claims(name, i) ensures name == LogFileName(i) {
      SlotNamesDiffer(0, i);
    }
    forall i: nat | 1 <= i < 10 ensures !Has(s.files, i) {
      SlotNamesDiffer(0, i);
    }
  }

  /** The same for a log that starts in an empty directory. */
  lemma RetentionFromEmpty(events: seq<Event>, l: nat)
    requires Orderly(events) && BodiesAtMost(events, l)
    ensures Valid(Started(map[]))
    ensures Deletions(Started(map[]), events) > 0 ==>
              forall i: nat | 1 <= i < 10 ::
                && Has(Run(Started(map[]), events).files, i)
                && |Slot(Run(Started(map[]), events).files, i)| > MAX_LOG_BYTES - l
  {
    hide LogFileName, Started, Run, Deletions, Dense, NoStrayNames, BodiesAtMost, Orderly;
    EmptyStart(MAX_LOG_BYTES - l);
    RotatedOutSlotsAreFull(Started(map[]), events, l);
    AfterDeletionAllSlotsExist(Started(map[]), events);
  }
}
