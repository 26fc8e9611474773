/** startJogMove taken apart into its single writes: the sign is set before axis and direction, so a
    slave that looks in between can jog what nobody asked for. */
module JogPublications {
  import opened MessageData
  import opened Configs
  import opened Operations
  import opened Masters
  import M = MasterRuns

  /** An axis and the direction to jog it in. */
  datatype Jog = Jog(num: int, dir: int)

  /** Where the one thread that starts jogging stands. */
  datatype Place =
    | Idle
    | Entered(jog: Jog, space: int)      // about to read controllerStatus
    | StatusSeen(jog: Jog, space: int)   // about to rewrite the file
    | Filed(jog: Jog, space: int)        // about to write plannerTaskSpace
    | SpaceSet(jog: Jog)                 // about to set jogSign
    | SignSet(jog: Jog)                  // about to write jogNum
    | NumSet(jog: Jog)                   // about to write jogDir

  /** How far the last call that set the sign has come, or came before its process died: the axis and
      direction it found, and whether they were being jogged by order. */
  datatype Writes =
    | Whole
    | AfterSign(jog: Jog, before: Jog, ordered: bool)
    | AfterNum(jog: Jog, before: Jog, ordered: bool)

  /** What the slave found with the sign set, and what was ordered then. */
  datatype Sight = Sight(jog: Jog, ordered: set<Jog>, writes: Writes)

  /** `ordered` is what has been asked for and not ended: the jog of a call from the write of its sign
      on, beside the one under way until its last write, and nothing while the sign is clear. */
  datatype Shared = Shared(system: System, place: Place, writes: Writes, ordered: set<Jog>, seen: seq<Sight>)

  datatype MicroStep =
    | Begin(jog: Jog, space: int)
    | Advance               // the issuing thread's next read or write
    | Look                  // the slave looks at sign, axis and direction
    | Other(step: M.Step)   // anything else

  function Memory(s: Shared): Command {
    s.system.desk.command
  }

  function Now(s: Shared): Jog {
    Jog(Memory(s).jogNum, Memory(s).jogDir)
  }

  ghost predicate Enabled(s: Shared, step: MicroStep)
    requires M.Sound(s.system)
  {
    match step
    case Begin(_, _) => s.place.Idle?
    case Other(step) => M.Enabled(s.system, step) && !(step.Operate? && step.op.StartJog?)
    case _ => true
  }

  function OnMemory(s: Shared, c: Command): Shared {
    s.(system := M.OnCommand(s.system, c))
  }

  function SignWritten(s: Shared, jog: Jog): Shared {
    var ordered := Memory(s).jogSign && Now(s) in s.ordered;
    OnMemory(s, Memory(s).(jogSign := true)).(
      place := SignSet(jog), writes := AfterSign(jog, Now(s), ordered),
      ordered := {jog} + if ordered then {Now(s)} else {})
  }

  /** The next read or write of the issuing thread. */
  function Advanced(s: Shared): Shared {
    var d := s.system.desk;
    var c := d.command;
    match s.place
    case Idle => s
    case Entered(jog, space) => s.(place := if s.system.slave.status.Wait? then StatusSeen(jog, space) else Idle)
    case StatusSeen(jog, space) =>
      s.(system := s.system.(desk := d.(config := Merged(d.config, map[SPACE := Number(space)]))), place := Filed(jog, space))
    case Filed(jog, space) => OnMemory(s, c.(plannerTaskSpace := space)).(place := SpaceSet(jog))
    case SpaceSet(jog) => SignWritten(s, jog)
    case SignSet(jog) =>
      OnMemory(s, c.(jogNum := jog.num)).(
        place := NumSet(jog), writes := if s.writes.AfterSign? then AfterNum(jog, s.writes.before, s.writes.ordered) else s.writes)
    case NumSet(jog) =>
      OnMemory(s, c.(jogDir := jog.dir)).(place := Idle, writes := Whole, ordered := if c.jogSign then {jog} else {})
  }

  function Next(s: Shared, step: MicroStep): Shared
    requires M.Sound(s.system) && Enabled(s, step)
  {
    match step
    case Begin(jog, space) => s.(place := Entered(jog, space))
    case Advance => Advanced(s)
    case Look => if Memory(s).jogSign then s.(seen := s.seen + [Sight(Now(s), s.ordered, s.writes)]) else s
    case Other(step) =>
      var system := M.Next(s.system, step);
      s.(system := system, place := if step.Restart? then Idle else s.place,
         ordered := if system.desk.command.jogSign then s.ordered else {})
  }

  /** Memory shows an axis and direction that nobody has ordered: with only the sign written, those of
      a jog no longer under way; with the axis written too, the new axis in the old direction. */
  predicate Exposed(w: Writes) {
    match w
    case Whole => false
    case AfterSign(jog, before, ordered) => before != jog && !ordered
    case AfterNum(jog, before, ordered) => before.dir != jog.dir && !(ordered && before.num == jog.num)
  }

  predicate PlaceMatches(place: Place, w: Writes) {
    && (place.SignSet? ==> w.AfterSign? && w.jog == place.jog)
    && (place.NumSet? ==> w.AfterNum? && w.jog == place.jog)
  }

  /** What memory shows and what is ordered, by how far the writes have come. */
  ghost predicate Tidy(s: Shared) {
    && M.Sound(s.system) && PlaceMatches(s.place, s.writes)
    && (!Memory(s).jogSign ==> s.ordered == {})
    && (match s.writes
        case Whole => Memory(s).jogSign ==> s.ordered == {Now(s)}
        case AfterSign(jog, before, ordered) =>
          Now(s) == before && (Memory(s).jogSign ==> s.ordered == {jog} + if ordered then {before} else {})
        case AfterNum(jog, before, ordered) =>
          Now(s) == Jog(jog.num, before.dir) && (Memory(s).jogSign ==> s.ordered == {jog} + if ordered then {before} else {}))
    && (forall sight | sight in s.seen :: sight.jog !in sight.ordered <==> Exposed(sight.writes))
  }

  /** Up to the write of the sign nothing of the jog changes. */
  lemma PreparingKeepsTidy(s: Shared)
    requires Tidy(s) && !s.place.SpaceSet? && !s.place.SignSet? && !s.place.NumSet?
    ensures Tidy(Advanced(s))
  {
    hide WellTyped, SignWritten, Merged;
    if s.place.StatusSeen? {
      OperationKeepsTypes(s.system.desk, Wait, s.system.robot.userZero, ChangeSpace(s.place.space));
    }
  }

  lemma WritingKeepsTidy(s: Shared)
    requires Tidy(s) && (s.place.SpaceSet? || s.place.SignSet? || s.place.NumSet?)
    ensures Tidy(Advanced(s))
  {
    hide WellTyped, Merged, Exposed;
  }

  lemma StepKeepsTidy(s: Shared, step: MicroStep)
    requires Tidy(s) && Enabled(s, step)
    ensures Tidy(Next(s, step))
  {
    hide WellTyped, M.Next, Advanced;
    match step
    case Advance => if s.place.SpaceSet? || s.place.SignSet? || s.place.NumSet? { WritingKeepsTidy(s); } else { PreparingKeepsTidy(s); }
    case Other(step) =>
      M.NextKeepsSound(s.system, step);
      M.JogStays(s.system, step);
    case _ =>
  }

  /** Any idle moment of the system can be the start: a jog under way then counts as ordered. */
  lemma IdleIsTidy(system: System)
    requires M.Sound(system)
    ensures var c := system.desk.command;
            Tidy(Shared(system, Idle, Whole, if c.jogSign then {Jog(c.jogNum, c.jogDir)} else {}, []))
  {
  }

  ghost predicate Legal(s: Shared, steps: seq<MicroStep>)
    requires Tidy(s)
    decreases steps
  {
    steps == [] || (Enabled(s, steps[0]) && (StepKeepsTidy(s, steps[0]); Legal(Next(s, steps[0]), steps[1..])))
  }

  ghost function Final(s: Shared, steps: seq<MicroStep>): Shared
    requires Tidy(s) && Legal(s, steps)
    decreases steps
  {
    if steps == [] then s
    else (StepKeepsTidy(s, steps[0]); Final(Next(s, steps[0]), steps[1..]))
  }

  /** In every interleaving the slave sees a jog that is not ordered exactly when it looks while the
      last call has set the sign but not written all, or died there, and the two jogs differ as
      `Exposed` says; with all written, the jog it sees is the one ordered. */
  lemma {:induction false} SightIsUnorderedIff(s: Shared, steps: seq<MicroStep>)
    requires Tidy(s) && Legal(s, steps)
    ensures Tidy(Final(s, steps))
    ensures forall sight | sight in Final(s, steps).seen :: sight.jog !in sight.ordered <==> Exposed(sight.writes)
    decreases steps
  {
    hide Next, Enabled;
    if steps != [] {
      StepKeepsTidy(s, steps[0]);
      SightIsUnorderedIff(Next(s, steps[0]), steps[1..]);
    }
  }

  // ---------------------------------------------------------------- one call

  /** `n` further reads and writes of the issuing thread, nothing in between. */
  function AdvancedBy(s: Shared, n: nat): Shared
    decreases n
  {
    if n == 0 then s else AdvancedBy(Advanced(s), n - 1)
  }

  lemma {:induction false} OneMore(s: Shared, n: nat)
    ensures AdvancedBy(s, n + 1) == Advanced(AdvancedBy(s, n))
    decreases n
  {
    hide Advanced;
    if n == 0 {
      assert AdvancedBy(s, 1) == AdvancedBy(Advanced(s), 0);
    } else {
      OneMore(Advanced(s), n - 1);
    }
  }

  lemma {:induction false} IdleStays(s: Shared, n: nat)
    requires s.place.Idle?
    ensures AdvancedBy(s, n) == s
    decreases n
  {
    if n != 0 { IdleStays(s, n - 1); }
  }

  /** A slave that looks now sees a jog that is not ordered. */
  predicate Misleads(s: Shared) {
    Memory(s).jogSign && Now(s) !in s.ordered
  }

  lemma {:induction false} RefusedCallEnds(s: Shared, n: nat)
    requires s.place.Entered? && !s.system.slave.status.Wait?
    ensures AdvancedBy(s, n) == if n == 0 then s else s.(place := Idle)
  {
    if n != 0 { IdleStays(Advanced(s), n - 1); }
  }

  /** The call left alone with a waiting slave, read by read and write by write. */
  ghost predicate CallAfter(s: Shared, jog: Jog, space: int, n: nat, t: Shared)
  {
    var d, on := s.system.desk, Memory(s).jogSign;
    var filed := d.(config := Merged(d.config, map[SPACE := Number(space)]));
    var c := d.command.(plannerTaskSpace := space);
    var ordered := {jog} + if on then {Now(s)} else {};
    match n
    case 0 => t == s.(place := Entered(jog, space))
    case 1 => t == s.(place := StatusSeen(jog, space))
    case 2 => t == s.(place := Filed(jog, space), system := s.system.(desk := filed))
    case 3 => t == s.(place := SpaceSet(jog), system := s.system.(desk := filed.(command := c)))
    case 4 => t == s.(place := SignSet(jog), system := s.system.(desk := filed.(command := c.(jogSign := true))),
                      ordered := ordered, writes := AfterSign(jog, Now(s), on))
    case 5 => t == s.(place := NumSet(jog), system := s.system.(desk := filed.(command := c.(jogSign := true, jogNum := jog.num))),
                      ordered := ordered, writes := AfterNum(jog, Now(s), on))
    case _ => t == s.(place := Idle, ordered := {jog}, system := s.system.(desk :=
                        filed.(command := c.(jogSign := true, jogNum := jog.num, jogDir := jog.dir))))
  }

  lemma CallProceeds(s: Shared, jog: Jog, space: int, n: nat, t: Shared)
    requires Tidy(s) && s.writes.Whole? && s.system.slave.status.Wait? && CallAfter(s, jog, space, n, t)
    ensures CallAfter(s, jog, space, n + 1, Advanced(t))
  {
    hide WellTyped, Merged;
  }

  lemma {:induction false} CallRuns(s: Shared, jog: Jog, space: int, n: nat)
    requires Tidy(s) && s.writes.Whole? && s.system.slave.status.Wait?
    ensures CallAfter(s, jog, space, n, AdvancedBy(s.(place := Entered(jog, space)), n))
    decreases n
  {
    var s0 := s.(place := Entered(jog, space));
    if n > 0 {
      hide Advanced, CallAfter;
      CallRuns(s, jog, space, n - 1);
      OneMore(s0, n - 1);
      CallProceeds(s, jog, space, n - 1, AdvancedBy(s0, n - 1));
    }
  }

  /** Left alone, the six reads and writes come to exactly the atomic operation. */
  lemma UninterruptedJogIsAtomic(s: Shared, jog: Jog, space: int)
    requires Tidy(s) && s.writes.Whole?
    ensures var t := AdvancedBy(s.(place := Entered(jog, space)), 6);
            && t.place.Idle? && t.system == M.Next(s.system, M.Operate(StartJog(jog.num, jog.dir, space)))
            && t.ordered == if s.system.slave.status.Wait? then {jog} else s.ordered
  {
    hide Advanced, WellTyped;
    if s.system.slave.status.Wait? {
      CallRuns(s, jog, space, 6);
    } else {
      RefusedCallEnds(s.(place := Entered(jog, space)), 6);
    }
  }

  /** The moments of the call at which a slave that looks is misled. */
  lemma MisleadsAtIff(s: Shared, jog: Jog, space: int, n: nat)
    requires Tidy(s) && s.writes.Whole?
    ensures Misleads(AdvancedBy(s.(place := Entered(jog, space)), n))
       <==> && s.system.slave.status.Wait?
            && ((n == 4 && jog != Now(s) && !Memory(s).jogSign)
                || (n == 5 && jog.dir != Now(s).dir && !(Memory(s).jogSign && jog.num == Now(s).num)))
  {
    hide Advanced, AdvancedBy, WellTyped;
    if s.system.slave.status.Wait? {
      CallRuns(s, jog, space, n);
    } else {
      RefusedCallEnds(s.(place := Entered(jog, space)), n);
    }
  }

  /** When a slave looking during the call can be misled: with jogging off, exactly if axis or direction
      is another than memory holds; with jogging on, exactly if both are. */
  lemma CallMisleadsIff(s: Shared, jog: Jog, space: int)
    requires Tidy(s) && s.writes.Whole?
    ensures (exists n: nat :: Misleads(AdvancedBy(s.(place := Entered(jog, space)), n)))
       <==> && s.system.slave.status.Wait?
            && if Memory(s).jogSign then jog.num != Now(s).num && jog.dir != Now(s).dir else jog != Now(s)
  {
    hide Advanced, AdvancedBy, Tidy, Misleads;
    var s0 := s.(place := Entered(jog, space));
    MisleadsAtIff(s, jog, space, 4);
    MisleadsAtIff(s, jog, space, 5);
    if n: nat :| Misleads(AdvancedBy(s0, n)) {
      MisleadsAtIff(s, jog, space, n);
    }
  }
}
