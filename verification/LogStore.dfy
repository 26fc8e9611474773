/** The rotating log: the file-static `sign`, the open slot 0 and the files behind them. */
module LogStore {
  import opened LogNames
  import opened LogDirectory
  import opened Options

  datatype Store = Store(files: Directory, sign: int)

  /** Slot 0 is open for appending and no slot above `sign` exists. */
  ghost predicate Valid(s: Store) {
    && 0 <= s.sign <= 9
    && Has(s.files, 0)
    && forall i: nat | s.sign < i < 10 :: !Has(s.files, i)
  }

  /** Process start: recover `sign` from the names present, then open slot 0 with "a". */
  function Started(files: Directory): Store {
    var top := TopClaim(files.Keys, 10);
    Store(if Has(files, 0) then files else files[LogFileName(0) := ""], if top == -1 then 0 else top)
  }

  function NeedsRotation(s: Store, len: nat): bool {
    len + |Slot(s.files, 0)| > MAX_LOG_BYTES
  }

  /** Room is made for one more slot: at ten slots the last one goes. */
  function DropOldest(s: Store): Store {
    if s.sign >= 9 then Store(Remove(s.files, LogFileName(9)), s.sign - 1) else s
  }

  function Rotated(s: Store): Store
    requires 0 <= s.sign
  {
    var room := DropOldest(s);
    Store(ShiftRange(room.files, room.sign, 0)[LogFileName(0) := ""], room.sign + 1)
  }

  function SizeChecked(s: Store, len: nat): Store
    requires 0 <= s.sign
  {
    if NeedsRotation(s, len) then Rotated(s) else s
  }

  /** vsnprintf into `size` characters: the longest part of the text that leaves room for the
      terminator, and the length the text has in full. */
  function VsnPrintf(size: nat, text: string): (r: (string, nat))
    requires 1 <= size
    ensures r.1 == |text| && r.0 <= text && |r.0| < size
    ensures |r.0| == size - 1 || r.0 == text
  {
    (text[..if |text| < size then |text| else size - 1], |text|)
  }

  /** What reaches the file. */
  function Line(header: string, body: string): string {
    header + VsnPrintf(MAX_INFO_SIZE, body).0
  }

  function Written(s: Store, header: string, body: string): Store
    requires 0 <= s.sign
  {
    var t := SizeChecked(s, VsnPrintf(MAX_INFO_SIZE, body).1);
    Store(t.files[LogFileName(0) := Slot(t.files, 0) + Line(header, body)], t.sign)
  }

  /** The text a rotation gives up. */
  function DroppedBy(s: Store): string {
    if s.sign >= 9 then Slot(s.files, 9) else ""
  }

  function DroppedByWrite(s: Store, len: nat): string {
    if NeedsRotation(s, len) then DroppedBy(s) else ""
  }

  lemma StartedIsValid(files: Directory)
    ensures Valid(Started(files))
    ensures Contents(Started(files).files) == Contents(files)
  {
    var s := Started(files);
    TopClaimIsTop(files.Keys, 10);
    AllSlotNamesDiffer();
    forall i: nat | s.sign < i < 10 ensures !Has(s.files, i) {
      SlotNamesDiffer(i, i);
      assert LogFileName(i) in files.Keys ==> Claims(LogFileName(i), i);
    }
    OpenSlotZero(files);
  }

  lemma RoomIsMade(s: Store)
    requires Valid(s)
    ensures 0 <= DropOldest(s).sign <= 8 && !Has(DropOldest(s).files, DropOldest(s).sign + 1)
    ensures forall i: nat | i < 9 :: Lookup(DropOldest(s).files, LogFileName(i)) == Lookup(s.files, LogFileName(i))
    ensures forall i: nat | DropOldest(s).sign < i < 10 :: !Has(DropOldest(s).files, i)
    ensures forall name | !SlotNames(name) :: Lookup(DropOldest(s).files, name) == Lookup(s.files, name)
    ensures Contents(s.files) == DroppedBy(s) + Contents(DropOldest(s).files)
  {
    RemoveLastSlot(s.files);
    AllSlotNamesDiffer();
    forall i: nat | i < 9
      ensures Lookup(DropOldest(s).files, LogFileName(i)) == Lookup(s.files, LogFileName(i))
    {
      assert LogFileName(i) != LogFileName(9);
    }
    forall name | !SlotNames(name)
      ensures Lookup(DropOldest(s).files, name) == Lookup(s.files, name)
    {
      assert name != LogFileName(9);
    }
    assert "" + Contents(s.files) == Contents(s.files);
  }

  /** One rotation: slot i becomes slot i+1 whether or not it exists, slot 0 is new and
      empty, only slot 9 can be lost, and files that are not slots are not touched. */
  lemma RotationIsExactShift(s: Store)
    requires Valid(s)
    ensures Valid(Rotated(s))
    ensures Rotated(s).sign == if s.sign == 9 then 9 else s.sign + 1
    ensures Lookup(Rotated(s).files, LogFileName(0)) == Some("")
    ensures forall i: nat | i <= 8 :: Lookup(Rotated(s).files, LogFileName(i + 1)) == Lookup(s.files, LogFileName(i))
    ensures forall name | !SlotNames(name) :: Lookup(Rotated(s).files, name) == Lookup(s.files, name)
    ensures NothingReplaced(DropOldest(s).files, DropOldest(s).sign, 0)
  {
    hide LogFileName;
    var room := DropOldest(s);
    RoomIsMade(s);
    ShiftRangeIsExact(room.files, room.sign, 0);
    var shifted := ShiftRange(room.files, room.sign, 0);
    var r := Rotated(s);
    forall i: nat | 1 <= i < 10 ensures Lookup(r.files, LogFileName(i)) == Lookup(shifted, LogFileName(i)) {
      SlotNamesDiffer(0, i);
    }
    forall i: nat | i <= 8
      ensures Lookup(r.files, LogFileName(i + 1)) == Lookup(s.files, LogFileName(i))
    {
      if i > room.sign {
        assert !Has(room.files, i) && !Has(room.files, i + 1);
      }
    }
    forall i: nat | r.sign < i < 10 ensures !Has(r.files, i) {
      var j := i - 1;
      assert !Has(s.files, j);
      assert Lookup(r.files, LogFileName(j + 1)) == Lookup(s.files, LogFileName(j));
    }
    forall name | !SlotNames(name) ensures Lookup(r.files, name) == Lookup(s.files, name) {
      assert name != LogFileName(0);
    }
  }

  /** A rotation gives up the old slot 9 and keeps every other character in its place. */
  lemma RotationKeepsText(s: Store)
    requires Valid(s)
    ensures Contents(s.files) == DroppedBy(s) + Contents(Rotated(s).files)
  {
    hide LogFileName;
    var room := DropOldest(s);
    RoomIsMade(s);
    ShiftRangeIsExact(room.files, room.sign, 0);
    ShiftRangeKeepsText(room.files, room.sign, 0);
    OpenSlotZero(ShiftRange(room.files, room.sign, 0));
  }

  /** Creating slot 0 where there is none adds no text. */
  lemma OpenSlotZero(d: Directory)
    ensures !Has(d, 0) ==> Contents(d[LogFileName(0) := ""]) == Contents(d)
  {
    AppendText(d, "");
    assert Slot(d, 0) + "" == Slot(d, 0);
    assert Contents(d) + "" == Contents(d);
  }

  lemma AppendText(d: Directory, text: string)
    ensures Contents(d[LogFileName(0) := Slot(d, 0) + text]) == Contents(d) + text
  {
    AppendToSlotZero(d, text, 10);
  }

  lemma SizeCheckKeepsValid(s: Store, len: nat)
    requires Valid(s)
    ensures Valid(SizeChecked(s, len))
    ensures Contents(s.files) == DroppedByWrite(s, len) + Contents(SizeChecked(s, len).files)
  {
    if NeedsRotation(s, len) {
      RotationIsExactShift(s);
      RotationKeepsText(s);
    } else {
      assert "" + Contents(s.files) == Contents(s.files);
    }
  }

  lemma WriteKeepsValid(s: Store, header: string, body: string)
    requires Valid(s)
    ensures Valid(Written(s, header, body))
  {
    hide LogFileName;
    SizeCheckKeepsValid(s, |body|);
    AllSlotNamesDiffer();
    var w := Written(s, header, body);
    forall i: nat | w.sign < i < 10 ensures !Has(w.files, i) {
      assert !Has(SizeChecked(s, |body|).files, i);
    }
  }

  /** A write adds the header and up to 255 characters of the body at the new end and loses at most
      the old slot 9. */
  lemma WriteAppends(s: Store, header: string, body: string)
    requires Valid(s)
    ensures Contents(s.files) + (header + body[..if |body| < 256 then |body| else 255])
         == DroppedByWrite(s, |body|) + Contents(Written(s, header, body).files)
  {
    var t := SizeChecked(s, |body|);
    var line := Line(header, body);
    SizeCheckKeepsValid(s, |body|);
    AppendText(t.files, line);
    Reassociate(DroppedByWrite(s, |body|), Contents(t.files), line);
  }

  /** Where a write leaves each slot: its line in slot 0, the others as the size check left them. */
  lemma WrittenSlots(s: Store, header: string, body: string)
    requires Valid(s)
    ensures var t, w := SizeChecked(s, |body|), Written(s, header, body);
            && Has(w.files, 0) && Slot(w.files, 0) == Slot(t.files, 0) + Line(header, body)
            && w.sign == t.sign
            && forall i: nat | 1 <= i < 10 :: Lookup(w.files, LogFileName(i)) == Lookup(t.files, LogFileName(i))
  {
    hide LogFileName;
    AllSlotNamesDiffer();
  }

  /** Where the size check moves each slot. */
  lemma CheckedSlots(s: Store, len: nat)
    requires Valid(s)
    ensures NeedsRotation(s, len) ==> SizeChecked(s, len).sign == if s.sign == 9 then 9 else s.sign + 1
    ensures NeedsRotation(s, len) ==> Slot(SizeChecked(s, len).files, 0) == ""
    ensures NeedsRotation(s, len) ==> Has(SizeChecked(s, len).files, 0)
    ensures NeedsRotation(s, len) ==>
              forall i: nat | 1 <= i < 10 :: Lookup(SizeChecked(s, len).files, LogFileName(i)) == Lookup(s.files, LogFileName(i - 1))
    ensures !NeedsRotation(s, len) ==> SizeChecked(s, len) == s
  {
    hide LogFileName;
    RotationIsExactShift(s);
    var r := Rotated(s);
    forall i: nat | 1 <= i < 10
      ensures Lookup(r.files, LogFileName(i)) == Lookup(s.files, LogFileName(i - 1))
    {
      var j: nat := i - 1;
      assert Lookup(r.files, LogFileName(j + 1)) == Lookup(s.files, LogFileName(j));
    }
  }

  lemma StraysStay(s: Store, header: string, body: string)
    requires Valid(s)
    ensures forall name | !SlotNames(name) :: Lookup(Written(s, header, body).files, name) == Lookup(s.files, name)
  {
    hide LogFileName;
    RotationIsExactShift(s);
    forall name | !SlotNames(name) ensures Lookup(Written(s, header, body).files, name) == Lookup(s.files, name) {
      assert name != LogFileName(0);
    }
  }

  /** Where a write leaves every file: the line alone in slot 0 and the other slots one further, if body
      and slot 0 together pass the limit, and otherwise the line at the end of slot 0. */
  lemma WriteMovesFiles(s: Store, header: string, body: string)
    requires Valid(s)
    ensures var w, line := Written(s, header, body), header + body[..if |body| < 256 then |body| else 255];
            var full := |body| + |Slot(s.files, 0)| > 1024 * 1024;
            && Lookup(w.files, LogFileName(0)) == Some(if full then line else Slot(s.files, 0) + line)
            && (forall i: nat | 1 <= i < 10 ::
              Lookup(w.files, LogFileName(i)) == Lookup(s.files, LogFileName(if full then i - 1 else i)))
            && (forall name | !SlotNames(name) :: Lookup(w.files, name) == Lookup(s.files, name))
            && w.sign == if full && s.sign < 9 then s.sign + 1 else s.sign
  {
    hide LogFileName, Written, SizeChecked;
    WrittenSlots(s, header, body);
    CheckedSlots(s, |body|);
    StraysStay(s, header, body);
    assert (header + body[..if |body| < 256 then |body| else 255]) == Line(header, body);
    assert "" + Line(header, body) == Line(header, body);
  }

  /** What a start does to the directory and what it finds: slot 0 is there, no file is changed, and
      `sign` is the highest slot that some name starts with, 0 if none does. */
  lemma StartFindsTopSlot(files: Directory)
    ensures var s := Started(files);
            && s.files == (if LogFileName(0) in files then files else files[LogFileName(0) := ""])
            && (forall name, i: nat | name in files && i < 10 && LogFileName(i) <= name :: i <= s.sign)
            && 0 <= s.sign < 10 && (s.sign == 0 || exists name | name in files :: LogFileName(s.sign) <= name)
  {
    hide LogFileName;
    TopClaimIsTop(files.Keys, 10);
    var s := Started(files);
    forall name, i: nat | name in files && i < 10 && LogFileName(i) <= name ensures i <= s.sign {
      assert name in files.Keys && Claims(name, i);
    }
    if s.sign != 0 {
      var name :| name in files.Keys && Claims(name, s.sign);
    }
  }

  class Log {
    var files: Directory
    var sign: int

    ghost function State(): Store
      reads this
    {
      Store(files, sign)
    }

    constructor (files: Directory)
      ensures this.files == files && sign == -1
    {
      this.files := files;
      sign := -1;
    }

    method StartLog(listing: seq<string>)
      requires sign == -1
      requires forall dName | dName in listing :: |dName| == NAME_BUFFER && NUL in dName
      requires forall name :: name in files <==> exists k :: 0 <= k < |listing| && CString(listing[k]) == name
      modifies this
      ensures State() == Started(old(files))
    {
      hide LogFileName, CString, CheckLogFile;
      var k := 0;
      while k < |listing|
        invariant k <= |listing| && files == old(files) && -1 <= sign < 10
        invariant sign == -1 || exists j | 0 <= j < k :: Claims(CString(listing[j]), sign)
        invariant forall j, i | 0 <= j < k && Claims(CString(listing[j]), i) :: i <= sign
      {
        var dName := listing[k];
        CheckLogFileIff(dName);
        if CheckLogFile(dName, |LOG_NAME|, |LOG_SUFFIX|) {
          var index := dName[|LOG_NAME|] as int - '0' as int;
          if sign < index {
            sign := index;
          }
        }
        k := k + 1;
      }
      assert IsTopClaim(files.Keys, sign) by {
        forall name, i | name in files.Keys && Claims(name, i) ensures i <= sign {
          assert name in files;
        }
        if sign != -1 {
          var j :| 0 <= j < |listing| && Claims(CString(listing[j]), sign);
          assert CString(listing[j]) in files;
        }
      }
      TopClaimUnique(files.Keys, sign);
      if sign == -1 {
        sign := 0;
      }
      if LogFileName(0) !in files {
        files := files[LogFileName(0) := ""];
      }
    }

    method DelOldLog()
      modifies this`files
      ensures files == Remove(old(files), LogFileName(9))
    {
      files := Remove(files, LogFileName(9));
    }

    method CheckLogSize(len: nat)
      requires Valid(State())
      modifies this
      ensures State() == SizeChecked(old(State()), len)
    {
      hide LogFileName;
      if len + |files[LogFileName(0)]| > MAX_LOG_BYTES {
        RoomIsMade(State());
        if sign >= 9 {
          DelOldLog();
          sign := sign - 1;
        }
        ghost var room := State();
        ShiftRangeIsExact(room.files, sign, 0);
        assert room == DropOldest(old(State()));
        var i := sign;
        while i >= 0
          invariant -1 <= i <= sign <= 8 && sign == room.sign
          invariant ShiftRange(files, i, 0) == ShiftRange(room.files, room.sign, 0)
          invariant NothingReplaced(files, i, 0)
        {
          assert !Has(files, i + 1);
          files := Rename(files, LogFileName(i), LogFileName(i + 1));
          i := i - 1;
        }
        sign := sign + 1;
        files := files[LogFileName(0) := ""];
      }
    }

    method LogWrite(header: string, body: string)
      requires Valid(State())
      modifies this
      ensures State() == Written(old(State()), header, body) && Valid(State())
    {
      hide LogFileName;
      WriteKeepsValid(State(), header, body);
      SizeCheckKeepsValid(State(), |body|);
      var (content, length) := VsnPrintf(MAX_INFO_SIZE, body);
      CheckLogSize(length);
      files := files[LogFileName(0) := files[LogFileName(0)] + (header + content)];
    }
  }
}
