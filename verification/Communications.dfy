/** The connection to the slave: one heartbeat sample per window of ticks, and the status
    that turns the sampled level into one-shot events. */
module Communications {
  import opened MessageData

  const MAX_TIMEOUT_COUNT := 10

  datatype Link = Link(timeoutCount: int, isConnect: bool, heartBeatRecord: Word, status: CommunicationStatus)

  function FreshLink(record: Word): Link {
    Link(0, false, record, Connected)
  }

  function Sampled(l: Link, window: int, heartbeat: Word): Link {
    if l.timeoutCount + 1 >= window then
      l.(timeoutCount := 0, isConnect := l.heartBeatRecord != heartbeat, heartBeatRecord := heartbeat)
    else
      l.(timeoutCount := l.timeoutCount + 1)
  }

  function NextStatus(level: bool, status: CommunicationStatus): CommunicationStatus {
    if level then (if status.NoConnect? then SuccessConnect else Connected)
    else (if status.Connected? then Disconnected else NoConnect)
  }

  /** One call of comRecvMessage, as far as the connection goes. */
  function Ticked(l: Link, window: int, heartbeat: Word): Link {
    var s := Sampled(l, window, heartbeat);
    s.(status := NextStatus(s.isConnect, s.status))
  }

  /** The link after one tick for each heartbeat value in `seen`. */
  function After(record: Word, window: int, seen: seq<Word>): Link {
    if seen == [] then FreshLink(record)
    else Ticked(After(record, window, seen[..|seen| - 1]), window, seen[|seen| - 1])
  }

  /** `connect` as robotRun keeps it: written only on the two events. */
  function FlagOn(flag: bool, status: CommunicationStatus): bool {
    if status.SuccessConnect? then true else if status.Disconnected? then false else flag
  }

  function Flag(record: Word, window: int, seen: seq<Word>): bool {
    if seen == [] then false
    else FlagOn(Flag(record, window, seen[..|seen| - 1]), After(record, window, seen).status)
  }

  // ---------------------------------------------------------------- events are edges

  /** The status an observer of the level alone expects; the very first tick reports a disconnection. */
  function EdgeOf(before: bool, now: bool, first: bool): CommunicationStatus {
    if now then (if before then Connected else SuccessConnect)
    else (if before || first then Disconnected else NoConnect)
  }

  predicate NotYetTicked(l: Link) {
    l.status.Connected? && !l.isConnect
  }

  /** What ties the window counter to the status: a rise is still at the start of its window,
      and a fall is past before the next sample. */
  predicate Coupled(l: Link, window: int) {
    && 0 <= l.timeoutCount < window
    && match l.status
       case Connected => l.isConnect || l.timeoutCount == 0
       case SuccessConnect => l.isConnect && l.timeoutCount == 0
       case Disconnected => !l.isConnect && l.timeoutCount + 1 < window
       case NoConnect => !l.isConnect
  }

  /** Every tick keeps the coupling and returns exactly the edge of the level. */
  lemma TickReturnsEdge(l: Link, window: int, heartbeat: Word)
    requires window >= 3 && Coupled(l, window)
    ensures Coupled(Ticked(l, window, heartbeat), window) && !NotYetTicked(Ticked(l, window, heartbeat))
    ensures Ticked(l, window, heartbeat).status == EdgeOf(l.isConnect, Ticked(l, window, heartbeat).isConnect, NotYetTicked(l))
    ensures FlagOn(l.isConnect, Ticked(l, window, heartbeat).status) == Ticked(l, window, heartbeat).isConnect
  {
  }

  lemma {:induction false} AlwaysCoupled(record: Word, window: int, seen: seq<Word>)
    requires window >= 3
    ensures Coupled(After(record, window, seen), window)
    ensures NotYetTicked(After(record, window, seen)) <==> seen == []
    ensures Flag(record, window, seen) == After(record, window, seen).isConnect
  {
    if seen != [] {
      var init := seen[..|seen| - 1];
      AlwaysCoupled(record, window, init);
      TickReturnsEdge(After(record, window, init), window, seen[|seen| - 1]);
    }
  }

  ghost predicate LastStatusIsEdge(record: Word, window: int, seen: seq<Word>)
    requires seen != []
  {
    After(record, window, seen).status
    == EdgeOf(After(record, window, seen[..|seen| - 1]).isConnect, After(record, window, seen).isConnect, |seen| == 1)
  }

  ghost predicate EventsAreEdges(window: int) {
    forall record, seen | seen != [] :: LastStatusIsEdge(record, window, seen)
  }

  ghost predicate FlagIsLevel(window: int) {
    forall record, seen :: Flag(record, window, seen) == After(record, window, seen).isConnect
  }

  /** Edge exactness and the connect flag hold on every run exactly for windows of three
      ticks or more; the program's ten is one of them. */
  lemma EventsAreEdgesIff(window: int)
    ensures EventsAreEdges(window) <==> window >= 3
    ensures FlagIsLevel(window) <==> window >= 3
  {
    if window >= 3 {
      forall record, seen: seq<Word> | seen != [] ensures LastStatusIsEdge(record, window, seen) {
        var init := seen[..|seen| - 1];
        AlwaysCoupled(record, window, init);
        TickReturnsEdge(After(record, window, init), window, seen[|seen| - 1]);
      }
      forall record, seen ensures Flag(record, window, seen) == After(record, window, seen).isConnect {
        AlwaysCoupled(record, window, seen);
      }
    } else {
      ShortWindowMissesRise(window);
    }
  }

  /** A window of two (or less) loses the rise at its first sample. */
  lemma ShortWindowMissesRise(window: int)
    requires window < 3
    ensures var seen: seq<Word> := if window == 2 then [1, 1] else [1];
            && After(0, window, seen).isConnect
            && !Flag(0, window, seen)
            && !LastStatusIsEdge(0, window, seen)
  {
    var one: seq<Word> := [1];
    var two: seq<Word> := [1, 1];
    assert one[..0] == [] && two[..1] == one;
    assert After(0, window, one) == Ticked(FreshLink(0), window, 1);
    assert After(0, window, two) == Ticked(After(0, window, one), window, 1);
  }

  /** The one-shot events of a run, in order. */
  function Events(record: Word, window: int, seen: seq<Word>): seq<CommunicationStatus> {
    if seen == [] then []
    else
      var status := After(record, window, seen).status;
      Events(record, window, seen[..|seen| - 1])
      + if status.SuccessConnect? || status.Disconnected? then [status] else []
  }

  /** The events strictly alternate and begin with the disconnection of the first tick. */
  lemma {:induction false} EventsAlternate(record: Word, window: int, seen: seq<Word>)
    requires window >= 3
    ensures forall i | 0 <= i < |Events(record, window, seen)| ::
              Events(record, window, seen)[i] == if i % 2 == 0 then Disconnected else SuccessConnect
    ensures seen != [] ==> |Events(record, window, seen)| > 0
    ensures seen != [] ==> (After(record, window, seen).isConnect <==> |Events(record, window, seen)| % 2 == 0)
  {
    if seen != [] {
      var init := seen[..|seen| - 1];
      EventsAlternate(record, window, init);
      AlwaysCoupled(record, window, init);
      TickReturnsEdge(After(record, window, init), window, seen[|seen| - 1]);
    }
  }

  // ---------------------------------------------------------------- closed form of the level

  lemma MulAtLeast(a: int, w: int)
    requires a >= 1 && w >= 1
    ensures a * w >= w
  {
    assert (a - 1) * w >= 0;
  }

  lemma MulMinus(a: int, b: int, w: int)
    ensures (a - b) * w == a * w - b * w
  {
  }

  lemma DivModUnique(n: int, w: int, q: int, r: int)
    requires n == q * w + r && 0 <= r < w
    ensures n / w == q && n % w == r
  {
    var q' := n / w;
    MulMinus(q', q, w);
    MulMinus(q, q', w);
    if q' > q { MulAtLeast(q' - q, w); }
    if q' < q { MulAtLeast(q - q', w); }
  }

  /** Counting one tick on: either the same window goes on or a window is complete. */
  lemma NextTick(n: nat, w: int)
    requires w >= 1
    ensures (n + 1) % w == if n % w + 1 >= w then 0 else n % w + 1
    ensures (n + 1) / w == if n % w + 1 >= w then n / w + 1 else n / w
    ensures n % w + 1 >= w ==> ((n + 1) / w) * w == n + 1
  {
    var q, r := n / w, n % w;
    assert n == q * w + r;
    if r + 1 >= w {
      assert n + 1 == (q + 1) * w + 0;
      DivModUnique(n + 1, w, q + 1, 0);
    } else {
      DivModUnique(n + 1, w, q, r + 1);
    }
  }

  /** The value the k-th sample takes; sample 0 is the record of the connection set-up. */
  function Sample(record: Word, w: int, seen: seq<Word>, k: int): Word
    requires w >= 1 && 0 <= k && k * w <= |seen|
  {
    if k == 0 then record else (SampleIndex(k, w); seen[k * w - 1])
  }

  lemma SampleIndex(k: int, w: int)
    requires k >= 1 && w >= 1
    ensures 1 <= k * w && 0 <= (k - 1) * w == k * w - w
  {
    assert k * w == (k - 1) * w + w;
  }

  lemma LastSample(n: nat, w: int)
    requires w >= 1
    ensures 0 <= n / w && (n / w) * w <= n < (n / w) * w + w
    ensures n >= w <==> n / w >= 1
  {
    assert n == (n / w) * w + n % w;
    if n / w >= 1 { SampleIndex(n / w, w); }
  }

  /** Whether the last two samples among `seen` differ. */
  function Level(record: Word, w: int, seen: seq<Word>): bool
    requires w >= 1
  {
    var n := |seen|;
    LastSample(n, w);
    n >= w && (SampleIndex(n / w, w); Sample(record, w, seen, n / w) != Sample(record, w, seen, n / w - 1))
  }

  /** The ticking fields have a closed form: the counter is the number of ticks modulo the
      window, the record the last sample, the level whether the last two samples differ. */
  lemma {:induction false} LinkClosedForm(record: Word, w: int, seen: seq<Word>)
    requires w >= 1
    ensures (|seen| / w) * w <= |seen| && 0 <= |seen| / w
    ensures After(record, w, seen).timeoutCount == |seen| % w
    ensures After(record, w, seen).heartBeatRecord == Sample(record, w, seen, |seen| / w)
    ensures After(record, w, seen).isConnect == Level(record, w, seen)
  {
    var n := |seen|;
    LastSample(n, w);
    if n == 0 {
      DivModUnique(0, w, 0, 0);
    } else {
      var init := seen[..n - 1];
      LinkClosedForm(record, w, init);
      NextTick(n - 1, w);
      LastSample(n - 1, w);
      if n % w == 0 {
        SampleIndex(n / w, w);
        assert Sample(record, w, seen, n / w) == seen[n - 1];
        if (n - 1) / w >= 1 { SampleIndex((n - 1) / w, w); }
        assert Sample(record, w, seen, n / w - 1) == Sample(record, w, init, (n - 1) / w);
      } else {
        var k := n / w;
        if k >= 1 {
          SampleIndex(k, w);
          if k >= 2 { SampleIndex(k - 1, w); }
          assert Sample(record, w, seen, k) == Sample(record, w, init, k);
          assert Sample(record, w, seen, k - 1) == Sample(record, w, init, k - 1);
        }
      }
    }
  }

  // ---------------------------------------------------------------- bounded detection

  /** Frozen for two windows: reported as not connected, and for as long as it stays frozen. */
  lemma FrozenIsDetected(record: Word, w: int, seen: seq<Word>, from: nat)
    requires w >= 1 && from + 2 * w <= |seen|
    requires forall t | from <= t < |seen| :: seen[t] == seen[from]
    ensures !After(record, w, seen).isConnect
  {
    LinkClosedForm(record, w, seen);
    var k := |seen| / w;
    LastSample(|seen|, w);
    SampleIndex(k, w);
    if k >= 2 {
      SampleIndex(k - 1, w);
      assert seen[k * w - 1] == seen[from] && seen[(k - 1) * w - 1] == seen[from];
    }
  }

  /** Changed over every window for two windows: reported as connected, and for as long as that lasts. */
  lemma AliveIsDetected(record: Word, w: int, seen: seq<Word>, from: nat)
    requires w >= 1 && from + 2 * w <= |seen|
    requires forall t | from <= t && t + w < |seen| :: seen[t + w] != seen[t]
    ensures After(record, w, seen).isConnect
  {
    LinkClosedForm(record, w, seen);
    var k := |seen| / w;
    LastSample(|seen|, w);
    SampleIndex(k, w);
    if k >= 2 {
      SampleIndex(k - 1, w);
      var t := (k - 1) * w - 1;
      assert seen[t + w] != seen[t];
    }
  }

  function Constant(n: nat, v: Word): (s: seq<Word>)
    ensures |s| == n && forall t | 0 <= t < n :: s[t] == v
  {
    seq(n, _ => v)
  }

  /** Two windows are needed: after one tick less a frozen slave can still count as connected. */
  lemma FrozenBoundIsTight(w: int)
    requires w >= 2
    ensures exists seen: seq<Word> ::
              && |seen| == w + (2 * w - 1)
              && (forall t | w <= t < |seen| :: seen[t] == seen[w])
              && After(0, w, seen).isConnect
  {
    var seen := Constant(w, 1) + Constant(2 * w - 1, 2);
    var n := |seen|;
    DivModUnique(n, w, 2, w - 1);
    LinkClosedForm(0, w, seen);
    assert Sample(0, w, seen, 2) == 2 && Sample(0, w, seen, 1) == 1;
  }

  /** And so are they for the return: after one tick less a slave that moves again can still count as lost. */
  lemma AliveBoundIsTight(w: int)
    requires w >= 2
    ensures exists seen: seq<Word> ::
              && |seen| == w + (2 * w - 1)
              && (forall t | w <= t && t + w < |seen| :: seen[t + w] != seen[t])
              && !After(0, w, seen).isConnect
  {
    var seen := Constant(2 * w, 1) + Constant(w - 1, 2);
    var n := |seen|;
    DivModUnique(n, w, 2, w - 1);
    LinkClosedForm(0, w, seen);
    assert Sample(0, w, seen, 2) == 1 && Sample(0, w, seen, 1) == 1;
  }

  // ---------------------------------------------------------------- wraparound

  /** `seen` is what a 32-bit counter shows of the unbounded counts `totals`. */
  ghost predicate Shows(seen: seq<Word>, totals: seq<nat>) {
    |seen| == |totals| && forall t | 0 <= t < |seen| :: seen[t] == totals[t] % WORD
  }

  /** The slave's advance between two counts is invisible exactly when it is a multiple of 2^32. */
  lemma SameWordIff(a: int, b: int)
    ensures a % WORD == b % WORD <==> (b - a) % WORD == 0
  {
    var qa, qb := a / WORD, b / WORD;
    assert a == qa * WORD + a % WORD && b == qb * WORD + b % WORD;
    if a % WORD == b % WORD {
      DivModUnique(b - a, WORD, qb - qa, 0);
    } else if (b - a) % WORD == 0 {
      var d := (b - a) / WORD;
      assert b == (qa + d) * WORD + a % WORD;
      DivModUnique(b, WORD, qa + d, a % WORD);
    }
  }

  /** The count at the k-th sample. */
  function TotalAt(start: nat, w: int, totals: seq<nat>, k: int): nat
    requires w >= 1 && 0 <= k && k * w <= |totals|
  {
    if k == 0 then start else (SampleIndex(k, w); totals[k * w - 1])
  }

  /** Across any overflow: not connected exactly when the last window's advance was a multiple of 2^32. */
  lemma DisconnectIffInvisibleAdvance(start: nat, w: int, seen: seq<Word>, totals: seq<nat>)
    requires w >= 1 && |seen| >= w && Shows(seen, totals)
    ensures |seen| / w >= 1 && (|seen| / w) * w <= |totals| && (|seen| / w - 1) * w <= |totals|
    ensures After(start % WORD, w, seen).isConnect <==>
              (TotalAt(start, w, totals, |seen| / w) - TotalAt(start, w, totals, |seen| / w - 1)) % WORD != 0
  {
    var k := |seen| / w;
    LastSample(|seen|, w);
    SampleIndex(k, w);
    LinkClosedForm(start % WORD, w, seen);
    if k >= 2 { SampleIndex(k - 1, w); }
    SameWordIff(TotalAt(start, w, totals, k - 1), TotalAt(start, w, totals, k));
  }

  /** The slave counts by 1 to 2^32-1 in every window. */
  ghost predicate AdvancesEachWindow(start: nat, w: int, totals: seq<nat>)
    requires w >= 1
  {
    forall k | 1 <= k && 0 <= (k - 1) * w && k * w <= |totals| ::
      1 <= TotalAt(start, w, totals, k) - TotalAt(start, w, totals, k - 1) < WORD
  }

  /** Connected from the end of the first window on, and not before. */
  lemma LiveLevel(start: nat, w: int, seen: seq<Word>, totals: seq<nat>)
    requires w >= 1 && Shows(seen, totals) && AdvancesEachWindow(start, w, totals)
    ensures After(start % WORD, w, seen).isConnect <==> |seen| >= w
  {
    LinkClosedForm(start % WORD, w, seen);
    var k := |seen| / w;
    LastSample(|seen|, w);
    if |seen| >= w {
      SampleIndex(k, w);
      DisconnectIffInvisibleAdvance(start, w, seen, totals);
      var d := TotalAt(start, w, totals, k) - TotalAt(start, w, totals, k - 1);
      DivModUnique(d, WORD, 0, d);
    }
  }

  lemma AdvancesBefore(start: nat, w: int, totals: seq<nat>, n: nat)
    requires w >= 1 && n <= |totals| && AdvancesEachWindow(start, w, totals)
    ensures AdvancesEachWindow(start, w, totals[..n])
  {
    forall k | 1 <= k && 0 <= (k - 1) * w && k * w <= n
      ensures 1 <= TotalAt(start, w, totals[..n], k) - TotalAt(start, w, totals[..n], k - 1) < WORD
    {
      SampleIndex(k, w);
      if k >= 2 { SampleIndex(k - 1, w); }
      assert TotalAt(start, w, totals[..n], k) == TotalAt(start, w, totals, k);
      assert TotalAt(start, w, totals[..n], k - 1) == TotalAt(start, w, totals, k - 1);
    }
  }

  /** A live slave is never reported as lost, however often its counter overflows: the only
      events of the run are the first tick's disconnection and the one connection. */
  lemma {:induction false} LiveSlaveStaysConnected(start: nat, w: int, seen: seq<Word>, totals: seq<nat>)
    requires w >= 3 && Shows(seen, totals) && AdvancesEachWindow(start, w, totals)
    ensures After(start % WORD, w, seen).isConnect <==> |seen| >= w
    ensures Events(start % WORD, w, seen) == [Disconnected, SuccessConnect][..if |seen| == 0 then 0 else if |seen| < w then 1 else 2]
  {
    hide AdvancesEachWindow, Ticked;
    var n := |seen|;
    LiveLevel(start, w, seen, totals);
    if n > 0 {
      var init := seen[..n - 1];
      AdvancesBefore(start, w, totals, n - 1);
      LiveSlaveStaysConnected(start, w, init, totals[..n - 1]);
      AlwaysCoupled(start % WORD, w, init);
      TickReturnsEdge(After(start % WORD, w, init), w, seen[n - 1]);
    }
  }

  // ---------------------------------------------------------------- the class

  datatype Ipc = Ipc(link: Link, queue: seq<Message>, robotData: RobotData, masterHeartbeat: Word)

  /** One call of comRecvMessage: while connected one data message is taken over; on the
      disconnection the queue is emptied. */
  function Received(i: Ipc, window: int, slaveHeartbeat: Word): Ipc {
    var link := Ticked(i.link, window, slaveHeartbeat);
    var taken := TakenMessage(i.queue, 1);
    Ipc(link,
        if link.isConnect then WithoutTaken(i.queue, 1) else if link.status.Disconnected? then [] else i.queue,
        if link.isConnect && taken.Some? then taken.value.robotData else i.robotData,
        (i.masterHeartbeat + 1) % WORD)
  }

  class Communication {
    var timeoutCount: int
    var isConnect: bool
    var heartBeatRecord: Word
    var communicationStatus: CommunicationStatus
    const maxTimeoutCount: int
    const heartbeats: Heartbeats
    const queue: MessageQueue
    const buffer: MessageBuffer

    ghost function LinkValue(): Link
      reads this
    {
      Link(timeoutCount, isConnect, heartBeatRecord, communicationStatus)
    }

    ghost function Value(): Ipc
      reads this, heartbeats, queue, buffer
    {
      Ipc(LinkValue(), queue.messages, buffer.robotData, heartbeats.masterHeartbeat)
    }

    constructor CreateConnect(heartbeats: Heartbeats, queue: MessageQueue, buffer: MessageBuffer)
      modifies heartbeats`masterHeartbeat
      ensures this.heartbeats == heartbeats && this.queue == queue && this.buffer == buffer
      ensures maxTimeoutCount == MAX_TIMEOUT_COUNT
      ensures LinkValue() == FreshLink(heartbeats.slaveHeartbeat) && heartbeats.masterHeartbeat == 0
    {
      this.heartbeats, this.queue, this.buffer := heartbeats, queue, buffer;
      maxTimeoutCount := MAX_TIMEOUT_COUNT;
      timeoutCount, isConnect, communicationStatus := 0, false, Connected;
      heartBeatRecord := heartbeats.slaveHeartbeat;
      new;
      heartbeats.masterHeartbeat := 0;
    }

    method CheckConnect() returns (connected: bool)
      modifies this
      ensures LinkValue() == Sampled(old(LinkValue()), maxTimeoutCount, heartbeats.slaveHeartbeat)
      ensures connected == isConnect
    {
      timeoutCount := timeoutCount + 1;
      if timeoutCount >= maxTimeoutCount {
        if heartBeatRecord == heartbeats.slaveHeartbeat {
          isConnect := false;
        } else {
          isConnect := true;
        }
        heartBeatRecord := heartbeats.slaveHeartbeat;
        timeoutCount := 0;
      }
      connected := isConnect;
    }

    /** Drains the queue, whatever the types of the messages in it. */
    method ClearMsg() returns (count: nat)
      modifies queue
      ensures queue.messages == [] && count == |old(queue.messages)|
    {
      count := 0;
      var more := true;
      while more
        invariant |queue.messages| + count == |old(queue.messages)|
        invariant !more ==> queue.messages == []
        decreases more, |queue.messages|
      {
        var m := queue.MsgRcv(0);
        if m.Some? {
          count := count + 1;
        } else {
          more := false;
        }
      }
    }

    method ComRecvMessage() returns (status: CommunicationStatus)
      modifies this, heartbeats`masterHeartbeat, queue, buffer
      ensures Value() == Received(old(Value()), maxTimeoutCount, heartbeats.slaveHeartbeat)
      ensures status == communicationStatus
    {
      var connected := CheckConnect();
      if connected {
        if communicationStatus == NoConnect {
          communicationStatus := SuccessConnect;
        } else {
          communicationStatus := Connected;
        }
        var m := queue.MsgRcv(1);
        if m.Some? {
          buffer.robotData := m.value.robotData;
        }
      } else {
        if communicationStatus == Connected {
          var count := ClearMsg();
          communicationStatus := Disconnected;
        } else {
          communicationStatus := NoConnect;
        }
      }
      heartbeats.masterHeartbeat := (heartbeats.masterHeartbeat + 1) % WORD;
      status := communicationStatus;
    }
  }
}
