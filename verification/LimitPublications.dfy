/** setUserJointLimit taken apart into its single writes, the slave's reading of the limits likewise,
    and every other step of the system running between any two of them. */
module LimitPublications {
  import opened MessageData
  import opened Controllers
  import opened Operations
  import opened Masters
  import M = MasterRuns
  import B = MailboxRuns

  const LISTS := 5

  /** The lists by number, in the order they are copied. */
  function Nth(l: Limits, k: nat): seq<real>
    requires k < LISTS
  {
    match k
    case 0 => l.qMax
    case 1 => l.qMin
    case 2 => l.dq
    case 3 => l.ddq
    case _ => l.dddq
  }

  function SetNth(l: Limits, k: nat, list: seq<real>): (r: Limits)
    requires k < LISTS
    ensures forall j: nat | j < LISTS :: Nth(r, j) == if j == k then list else Nth(l, j)
  {
    match k
    case 0 => l.(qMax := list)
    case 1 => l.(qMin := list)
    case 2 => l.(dq := list)
    case 3 => l.(ddq := list)
    case _ => l.(dddq := list)
  }

  lemma SameLimits(a: Limits, b: Limits)
    requires forall k: nat | k < LISTS :: Nth(a, k) == Nth(b, k)
    ensures a == b
  {
    assert Nth(a, 0) == Nth(b, 0) && Nth(a, 1) == Nth(b, 1) && Nth(a, 2) == Nth(b, 2) && Nth(a, 3) == Nth(b, 3) && Nth(a, 4) == Nth(b, 4);
  }

  lemma OverlaidNth(current: Limits, l: Limits, k: nat)
    requires LimitsShape(current) && LimitsFit(l) && k < LISTS
    ensures |Nth(l, k)| <= |Nth(current, k)| == JOINTS
    ensures Nth(LimitsOverlaid(current, l), k) == Overlaid(Nth(current, k), Nth(l, k))
  {
  }

  /** Where the one thread that sets limits stands: `list` lists are copied, and `done` elements of the
      next; `before` is what they were copied over. */
  datatype Place =
    | Idle
    | Entered(lists: Limits)   // about to read newLimit
    | Copying(lists: Limits, before: Limits, list: nat, done: nat)

  datatype Reader = Resting | Reading(read: Limits)

  datatype Shared = Shared(system: System, place: Place, reader: Reader, posted: seq<B.LimitRequest>, taken: seq<Limits>)

  datatype MicroStep =
    | Begin(lists: Limits)
    | Advance              // the setting thread's next read or write
    | Look                 // the slave looks at newLimit
    | ReadOne(list: nat)   // the slave reads the next element of a list
    | Clear                // the slave, having read them all, clears newLimit
    | Other(step: M.Step)

  ghost predicate PlaceFits(place: Place) {
    match place
    case Idle => true
    case Entered(lists) => LimitsFit(lists)
    case Copying(lists, before, list, done) =>
      LimitsFit(lists) && LimitsShape(before) && list <= LISTS && done <= if list < LISTS then |Nth(lists, list)| else 0
  }

  ghost predicate WellFormed(s: Shared) {
    && M.Sound(s.system) && PlaceFits(s.place)
    && (s.reader.Reading? ==> LimitsFit(s.reader.read))
  }

  function Memory(s: Shared): Command {
    s.system.desk.command
  }

  ghost predicate Enabled(s: Shared, step: MicroStep)
    requires WellFormed(s)
  {
    match step
    case Begin(lists) => s.place.Idle? && LimitsFit(lists)
    case ReadOne(list) => list < LISTS
    case Clear => s.reader.Reading? && LimitsShape(s.reader.read)
    case Other(step) => M.Enabled(s.system, step) && !step.TakeLimit? && !B.PostsLimits(s.system, step)
    case _ => true
  }

  function OnMemory(s: Shared, c: Command): (t: Shared)
    requires WellFormed(s) && CommandShape(c)
    ensures WellFormed(t)
  {
    s.(system := M.OnCommand(s.system, c))
  }

  /** One element of one list. */
  function Written1(l: Limits, lists: Limits, list: nat, done: nat): (r: Limits)
    requires LimitsShape(l) && LimitsFit(lists) && list < LISTS && done < |Nth(lists, list)|
    ensures LimitsShape(r)
  {
    SetNth(l, list, Nth(l, list)[done := Nth(lists, list)[done]])
  }

  /** The next read or write of the setting thread; the end of a copy goes on to the next. */
  function Advanced(s: Shared): (t: Shared)
    requires WellFormed(s)
    ensures WellFormed(t)
  {
    var c := Memory(s);
    match s.place
    case Idle => s
    case Entered(lists) => s.(place := if c.newLimit then Idle else Copying(lists, c.limits, 0, 0))
    case Copying(lists, before, list, done) =>
      if list == LISTS then
        OnMemory(s, c.(newLimit := true)).(place := Idle, posted := s.posted + [B.LimitRequest(lists, before)])
      else if done == |Nth(lists, list)| then s.(place := Copying(lists, before, list + 1, 0))
      else OnMemory(s, c.(limits := Written1(c.limits, lists, list, done))).(place := Copying(lists, before, list, done + 1))
  }

  function ReadMore(s: Shared, list: nat): Shared
    requires WellFormed(s) && list < LISTS
  {
    match s.reader
    case Resting => s
    case Reading(read) =>
      var got := Nth(read, list);
      if |got| < JOINTS then s.(reader := Reading(SetNth(read, list, got + [Nth(Memory(s).limits, list)[|got|]]))) else s
  }

  function Next(s: Shared, step: MicroStep): Shared
    requires WellFormed(s) && Enabled(s, step)
  {
    match step
    case Begin(lists) => s.(place := Entered(lists))
    case Advance => Advanced(s)
    case Look =>
      if s.reader.Resting? && Memory(s).newLimit then s.(reader := Reading(Limits([], [], [], [], []))) else s
    case ReadOne(list) => ReadMore(s, list)
    case Clear => OnMemory(s, Memory(s).(newLimit := false)).(reader := Resting, taken := s.taken + [s.reader.read])
    case Other(step) => s.(system := M.Next(s.system, step), place := if step.Restart? then Idle else s.place)
  }

  /** The part of list `k` that is copied. */
  function Part(lists: Limits, list: nat, done: nat, k: nat): (r: seq<real>)
    requires k < LISTS && (list < LISTS ==> done <= |Nth(lists, list)|)
    ensures |r| <= |Nth(lists, k)|
  {
    if k < list then Nth(lists, k) else if k == list then Nth(lists, k)[..done] else []
  }

  /** Memory shows the copied parts over what was there before. */
  ghost predicate ShowsPart(l: Limits, lists: Limits, before: Limits, list: nat, done: nat)
    requires LimitsShape(l) && LimitsShape(before) && LimitsFit(lists) && (list < LISTS ==> done <= |Nth(lists, list)|)
  {
    forall k: nat | k < LISTS :: Nth(l, k) == Overlaid(Nth(before, k), Part(lists, list, done, k))
  }

  /** The slave has taken a prefix of the posted limits, each in full over what was there before; the
      sign is set exactly while one more is posted, and then memory shows it in full and what the slave
      has read agrees with memory; nobody writes limits while it is set. */
  ghost predicate Untorn(s: Shared) {
    && WellFormed(s)
    && |s.posted| == |s.taken| + (if Memory(s).newLimit then 1 else 0)
    && (forall k | 0 <= k < |s.taken| :: B.LimitsMeet(s.taken[k], s.posted[k]))
    && (Memory(s).newLimit ==> B.LimitsMeet(Memory(s).limits, s.posted[|s.taken|]))
    && (s.place.Copying? ==>
      !Memory(s).newLimit && ShowsPart(Memory(s).limits, s.place.lists, s.place.before, s.place.list, s.place.done))
    && (s.reader.Reading? ==>
      Memory(s).newLimit && forall k: nat | k < LISTS :: Nth(s.reader.read, k) <= Nth(Memory(s).limits, k))
  }

  lemma OneMoreElement(l: Limits, lists: Limits, before: Limits, list: nat, done: nat)
    requires LimitsShape(l) && LimitsShape(before) && LimitsFit(lists) && list < LISTS && done < |Nth(lists, list)|
    requires ShowsPart(l, lists, before, list, done)
    ensures ShowsPart(Written1(l, lists, list, done), lists, before, list, done + 1)
  {
    var r := Written1(l, lists, list, done);
    forall k: nat | k < LISTS ensures Nth(r, k) == Overlaid(Nth(before, k), Part(lists, list, done + 1, k)) {
      assert Nth(l, k) == Overlaid(Nth(before, k), Part(lists, list, done, k));
    }
  }

  lemma NextList(l: Limits, lists: Limits, before: Limits, list: nat)
    requires LimitsShape(l) && LimitsShape(before) && LimitsFit(lists) && list < LISTS
    requires ShowsPart(l, lists, before, list, |Nth(lists, list)|)
    ensures ShowsPart(l, lists, before, list + 1, 0)
  {
    forall k: nat | k < LISTS ensures Nth(l, k) == Overlaid(Nth(before, k), Part(lists, list + 1, 0, k)) {
      assert Part(lists, list + 1, 0, k) == Part(lists, list, |Nth(lists, list)|, k);
    }
  }

  lemma AllShown(l: Limits, lists: Limits, before: Limits, done: nat)
    requires LimitsShape(l) && LimitsShape(before) && LimitsFit(lists) && ShowsPart(l, lists, before, LISTS, done)
    ensures l == LimitsOverlaid(before, lists)
  {
    forall k: nat | k < LISTS ensures Nth(l, k) == Nth(LimitsOverlaid(before, lists), k) {
      OverlaidNth(before, lists, k);
    }
    SameLimits(l, LimitsOverlaid(before, lists));
  }

  lemma NothingShown(l: Limits, lists: Limits)
    requires LimitsShape(l) && LimitsFit(lists)
    ensures ShowsPart(l, lists, l, 0, 0)
  {
  }

  lemma AdvanceKeepsUntorn(s: Shared)
    requires Untorn(s)
    ensures Untorn(Advanced(s))
  {
    hide WellTyped, ShowsPart, B.LimitsMeet;
    match s.place
    case Idle =>
    case Entered(lists) => NothingShown(Memory(s).limits, lists);
    case Copying(lists, before, list, done) =>
      if list == LISTS {
        AllShown(Memory(s).limits, lists, before, done);
        FullyShownMeets(before, lists);
        assert forall k | 0 <= k < |s.taken| :: Advanced(s).posted[k] == s.posted[k];
      } else if done == |Nth(lists, list)| {
        NextList(Memory(s).limits, lists, before, list);
      } else {
        OneMoreElement(Memory(s).limits, lists, before, list, done);
      }
  }

  lemma FullyShownMeets(before: Limits, lists: Limits)
    requires LimitsShape(before) && LimitsFit(lists)
    ensures B.LimitsMeet(LimitsOverlaid(before, lists), B.LimitRequest(lists, before))
  {
  }

  lemma ReaderKeepsUntorn(s: Shared, step: MicroStep)
    requires Untorn(s) && Enabled(s, step) && (step.Look? || step.ReadOne? || step.Clear?)
    ensures Untorn(Next(s, step))
  {
    hide WellTyped, ShowsPart, B.LimitsMeet;
    if step.Clear? {
      forall k: nat | k < LISTS ensures Nth(s.reader.read, k) == Nth(Memory(s).limits, k) {
        assert Nth(s.reader.read, k) <= Nth(Memory(s).limits, k);
      }
      SameLimits(s.reader.read, Memory(s).limits);
    }
  }

  lemma OtherKeepsUntorn(s: Shared, step: M.Step)
    requires Untorn(s) && Enabled(s, Other(step))
    ensures Untorn(Next(s, Other(step)))
  {
    hide M.Next, M.Enabled, WellTyped, ShowsPart, B.LimitsMeet, B.PostsLimits;
    M.NextKeepsSound(s.system, step);
    B.LimitsStay(s.system, step);
  }

  lemma StepKeepsUntorn(s: Shared, step: MicroStep)
    requires Untorn(s) && Enabled(s, step)
    ensures Untorn(Next(s, step))
  {
    hide ShowsPart;
    match step
    case Begin(_) =>
    case Advance => AdvanceKeepsUntorn(s);
    case Other(step) => OtherKeepsUntorn(s, step);
    case _ => ReaderKeepsUntorn(s, step);
  }

  ghost predicate Legal(s: Shared, steps: seq<MicroStep>)
    requires Untorn(s)
    decreases steps
  {
    steps == [] || (Enabled(s, steps[0]) && (StepKeepsUntorn(s, steps[0]); Legal(Next(s, steps[0]), steps[1..])))
  }

  ghost function Final(s: Shared, steps: seq<MicroStep>): Shared
    requires Untorn(s) && Legal(s, steps)
    decreases steps
  {
    if steps == [] then s
    else (StepKeepsUntorn(s, steps[0]); Final(Next(s, steps[0]), steps[1..]))
  }

  /** In every interleaving of single reads and writes on both sides, the k-th limits the slave takes
      show every element of the k-th posted lists, over the limits found when their copying began. */
  lemma {:induction false} LimitsAreTakenWhole(s: Shared, steps: seq<MicroStep>)
    requires Untorn(s) && Legal(s, steps)
    ensures Untorn(Final(s, steps))
    ensures |Final(s, steps).taken| <= |Final(s, steps).posted| <= |Final(s, steps).taken| + 1
    ensures forall k | 0 <= k < |Final(s, steps).taken| :: B.LimitsMeet(Final(s, steps).taken[k], Final(s, steps).posted[k])
    decreases steps
  {
    hide Next, Enabled, B.LimitsMeet, ShowsPart;
    if steps != [] {
      StepKeepsUntorn(s, steps[0]);
      LimitsAreTakenWhole(Next(s, steps[0]), steps[1..]);
    }
  }

  /** Any idle moment can be the start of such a run; limits left pending count as ones posted before it. */
  lemma IdleIsUntorn(system: System)
    requires M.Sound(system)
    ensures var c := system.desk.command;
            var before := if c.newLimit then [B.LimitRequest(Limits([], [], [], [], []), c.limits)] else [];
            Untorn(Shared(system, Idle, Resting, before, []))
  {
  }

  // ---------------------------------------------------------------- the call left alone

  ghost function AdvancedBy(s: Shared, n: nat): Shared
    requires WellFormed(s)
    ensures WellFormed(AdvancedBy(s, n))
    decreases n
  {
    if n == 0 then s else AdvancedBy(Advanced(s), n - 1)
  }

  /** How many steps are left from the start of list number `list` on. */
  function StepsFrom(lists: Limits, list: nat): (n: nat)
    decreases LISTS - list
  {
    if list >= LISTS then 1 else |Nth(lists, list)| + 1 + StepsFrom(lists, list + 1)
  }

  function StepsLeft(place: Place): int
    requires place.Copying?
  {
    StepsFrom(place.lists, place.list) - place.done
  }

  lemma CopyingStep(s: Shared)
    requires Untorn(s) && s.place.Copying? && s.place.list < LISTS
    ensures var t := Advanced(s);
            && Untorn(t) && t.place.Copying? && t.place.lists == s.place.lists && t.place.before == s.place.before
            && 1 <= StepsLeft(t.place) == StepsLeft(s.place) - 1
            && t == OnMemory(s, Memory(s).(limits := Memory(t).limits)).(place := t.place)
  {
    hide WellTyped, ShowsPart, B.LimitsMeet;
    AdvanceKeepsUntorn(s);
  }

  /** Where copying ends: all lists over what was there, and announced. */
  function Announced(s: Shared): Shared
    requires WellFormed(s) && s.place.Copying?
  {
    OnMemory(s, Memory(s).(limits := LimitsOverlaid(s.place.before, s.place.lists), newLimit := true)).(
      place := Idle, posted := s.posted + [B.LimitRequest(s.place.lists, s.place.before)])
  }

  lemma LastCopyingStep(s: Shared)
    requires Untorn(s) && s.place.Copying? && s.place.list == LISTS
    ensures StepsLeft(s.place) == 1 && Advanced(s) == Announced(s)
  {
    hide WellTyped, ShowsPart, LimitsOverlaid, B.LimitsMeet;
    AllShown(Memory(s).limits, s.place.lists, s.place.before, s.place.done);
  }

  lemma {:induction false} CopyingEnds(s: Shared, n: nat)
    requires Untorn(s) && s.place.Copying? && n == StepsLeft(s.place)
    ensures AdvancedBy(s, n) == Announced(s)
    decreases n
  {
    hide Advanced, WellTyped, ShowsPart, LimitsOverlaid, B.LimitsMeet, StepsLeft;
    if s.place.list == LISTS {
      LastCopyingStep(s);
      assert AdvancedBy(s, 1) == AdvancedBy(Advanced(s), 0);
    } else {
      CopyingStep(s);
      CopyingEnds(Advanced(s), n - 1);
    }
  }

  /** Left alone, the single writes come to exactly the operation that sets limits. */
  lemma UninterruptedSettingIsAtomic(s: Shared)
    requires Untorn(s) && s.place.Entered?
    ensures M.Enabled(s.system, M.Operate(SetLimit(s.place.lists)))
    ensures var t := AdvancedBy(s, 1 + StepsFrom(s.place.lists, 0));
            && t.place.Idle? && t.system == M.Next(s.system, M.Operate(SetLimit(s.place.lists)))
            && t.posted == if Memory(s).newLimit then s.posted
                           else s.posted + [B.LimitRequest(s.place.lists, Memory(s).limits)]
  {
    hide WellTyped, ShowsPart, LimitsOverlaid, B.LimitsMeet;
    AdvanceKeepsUntorn(s);
    if Memory(s).newLimit {
      IdleStays(Advanced(s), StepsFrom(s.place.lists, 0));
    } else {
      CopyingEnds(Advanced(s), StepsFrom(s.place.lists, 0));
    }
  }

  lemma {:induction false} IdleStays(s: Shared, n: nat)
    requires WellFormed(s) && s.place.Idle?
    ensures AdvancedBy(s, n) == s
    decreases n
  {
    if n != 0 { IdleStays(s, n - 1); }
  }
}
