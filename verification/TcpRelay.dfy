/** server/src/tcp.rs: two copy loops under one idle deadline.

    Time is in nanoseconds since `base`. Timers are exact: time does not pass a deadline before the idle loop has
    run. */
module TcpRelay {
  import opened Common

  type Bytes = seq<Byte>

  const MS: nat := 1_000_000
  const BUFFER: nat := 64 * 1024

  /** One `copy_direction`: what it took from its reader, what it gave to its writer, the unwritten rest of its
      buffer. */
  datatype Direction = Direction(taken: Bytes, given: Bytes, remaining: Bytes, eof: bool, shut: bool)

  datatype Outcome = Running | Finished | Failed | TimedOut

  /** `activity` is the atomic (milliseconds since base, plus one); `last` is the idle loop's copy of it. */
  datatype State = State(now: nat, activity: nat, last: nat, up: Direction, down: Direction, outcome: Outcome)

  datatype Event =
    | Tick(dt: nat)
    | Read(isUp: bool, chunk: Bytes)
    | Write(isUp: bool, n: nat)
    | Shutdown(isUp: bool)
    | IoError(isUp: bool)
    | IdleFires

  const FRESH: Direction := Direction([], [], [], false, false)

  const INIT: State := State(0, 1, 1, FRESH, FRESH, Running)

  function Side(s: State, isUp: bool): Direction { if isUp then s.up else s.down }

  function WithSide(s: State, isUp: bool, d: Direction): State { if isUp then s.(up := d) else s.(down := d) }

  function Deadline(idle: nat, s: State): nat { s.last * MS + idle }

  /** What one copy loop can do next. */
  predicate CanDo(d: Direction, e: Event) {
    match e
    case Read(_, chunk) => !d.eof && d.remaining == [] && |chunk| <= BUFFER
    case Write(_, n) => d.remaining != [] && n <= |d.remaining|
    case Shutdown(_) => d.eof && !d.shut
    case IoError(_) => !d.shut
    case _ => false
  }

  predicate Enabled(idle: nat, s: State, e: Event) {
    && s.outcome.Running?
    && match e
       case Tick(dt) => s.now + dt <= Deadline(idle, s)
       case IdleFires => s.now >= Deadline(idle, s)
       case _ => CanDo(Side(s, e.isUp), e)
  }

  /** `activity.store(base.elapsed().as_millis() + 1)`. */
  function Touch(s: State): State { s.(activity := s.now / MS + 1) }

  /** A read: nothing means end of input, anything else has to be written out first. */
  function AfterRead(d: Direction, chunk: Bytes): Direction {
    if chunk == [] then d.(eof := true) else d.(taken := d.taken + chunk, remaining := chunk)
  }

  function AfterWrite(d: Direction, n: nat): Direction
    requires n <= |d.remaining|
  {
    d.(given := d.given + d.remaining[..n], remaining := d.remaining[n..])
  }

  /** The effect of an event on its copy loop; an error or an empty write ends it where it is. */
  function AfterDoing(d: Direction, e: Event): Direction
    requires CanDo(d, e)
  {
    match e
    case Read(_, chunk) => AfterRead(d, chunk)
    case Write(_, n) => AfterWrite(d, n)
    case Shutdown(_) => d.(shut := true)
    case IoError(_) => d
  }

  function Step(idle: nat, s: State, e: Event): State {
    if !Enabled(idle, s, e) then s
    else match e
      case Tick(dt) => s.(now := s.now + dt)
      case Read(u, chunk) =>
        var t := WithSide(s, u, AfterRead(Side(s, u), chunk));
        if chunk == [] then t else Touch(t)
      case Write(u, n) => if n == 0 then s.(outcome := Failed) else Touch(WithSide(s, u, AfterWrite(Side(s, u), n)))
      case Shutdown(u) =>
        var t := WithSide(s, u, Side(s, u).(shut := true));
        if t.up.shut && t.down.shut then t.(outcome := Finished) else t
      case IoError(_) => s.(outcome := Failed)
      case IdleFires => if s.activity == s.last then s.(outcome := TimedOut) else s.(last := s.activity)
  }

  function Run(idle: nat, es: seq<Event>): State {
    if es == [] then INIT else Step(idle, Run(idle, es[..|es| - 1]), es[|es| - 1])
  }

  /** Bytes moved in either direction. */
  predicate Transfers(e: Event) { (e.Read? && e.chunk != []) || (e.Write? && e.n > 0) }

  /** When bytes last moved; the start of the relay if they never did. */
  function LastTransfer(idle: nat, es: seq<Event>): nat {
    if es == [] then 0
    else
      var before, e := es[..|es| - 1], es[|es| - 1];
      if Enabled(idle, Run(idle, before), e) && Transfers(e) then Run(idle, before).now else LastTransfer(idle, before)
  }

  predicate DirectionInv(d: Direction) {
    && d.given + d.remaining == d.taken
    && (d.eof ==> d.remaining == [])
    && (d.shut ==> d.eof)
  }

  predicate ClockInv(idle: nat, s: State, moved: nat) {
    && moved <= s.now
    && s.activity == moved / MS + 1
    && s.last <= s.activity
    && (s.outcome.TimedOut? ==> s.last == s.activity && s.now >= Deadline(idle, s))
    && s.now <= Deadline(idle, s)
  }

  predicate Inv(idle: nat, s: State, moved: nat) {
    && ClockInv(idle, s, moved)
    && DirectionInv(s.up) && DirectionInv(s.down)
    && (s.outcome.Finished? <==> s.up.shut && s.down.shut)
  }

  lemma {:induction false} RunKeepsInv(idle: nat, es: seq<Event>)
    ensures Inv(idle, Run(idle, es), LastTransfer(idle, es))
  {
    if es == [] {
    } else {
      var before, e := es[..|es| - 1], es[|es| - 1];
      RunKeepsInv(idle, before);
      var s := Run(idle, before);
      if Enabled(idle, s, e) {
        StepKeepsInv(idle, s, e, LastTransfer(idle, before));
      }
    }
  }

  lemma StepKeepsInv(idle: nat, s: State, e: Event, moved: nat)
    requires Inv(idle, s, moved) && Enabled(idle, s, e)
    ensures Inv(idle, Step(idle, s, e), if Transfers(e) then s.now else moved)
  {}

  lemma MsBounds(t: nat)
    ensures t < (t / MS + 1) * MS <= t + MS
  {}

  /** The relay times out only after strictly more than the idle timeout without a transfer, and at most 1 ms late. */
  lemma TimeoutWindow(idle: nat, es: seq<Event>)
    requires Run(idle, es).outcome.TimedOut?
    ensures var quiet := Run(idle, es).now - LastTransfer(idle, es); idle < quiet <= idle + MS
  {
    RunKeepsInv(idle, es);
    MsBounds(LastTransfer(idle, es));
  }

  /** No relay is ever quiet for longer than the idle timeout plus 1 ms. */
  lemma NeverQuietForLong(idle: nat, es: seq<Event>)
    ensures Run(idle, es).now - LastTransfer(idle, es) <= idle + MS
  {
    RunKeepsInv(idle, es);
    MsBounds(LastTransfer(idle, es));
  }

  /** At the end of that time the idle loop can stop the relay, at once or after looking once more. */
  lemma QuietRelayIsStopped(idle: nat, es: seq<Event>)
    requires Run(idle, es).outcome.Running? && Run(idle, es).now - LastTransfer(idle, es) == idle + MS
    ensures Run(idle, es + [IdleFires]).outcome.TimedOut?
  {
    RunKeepsInv(idle, es);
    MsBounds(LastTransfer(idle, es));
    assert (es + [IdleFires])[..|es|] == es;
  }

  /** In each direction the written bytes are a prefix of the read bytes at all times; a finished relay wrote all it
      read and saw both inputs end. */
  lemma BytesAreKept(idle: nat, es: seq<Event>, isUp: bool)
    ensures var s := Run(idle, es);
            var d := Side(s, isUp);
            && d.given <= d.taken && |d.taken| - |d.given| <= BUFFER
            && (s.outcome.Finished? ==> d.given == d.taken && d.eof && d.shut)
            && (d.shut ==> d.given == d.taken)
  {
    RunKeepsInv(idle, es);
    RemainderBounded(idle, es);
  }

  lemma {:induction false} RemainderBounded(idle: nat, es: seq<Event>)
    ensures |Run(idle, es).up.remaining| <= BUFFER && |Run(idle, es).down.remaining| <= BUFFER
  {
    if es != [] {
      RemainderBounded(idle, es[..|es| - 1]);
    }
  }

  // ---------------------------------------------------------------- half-close

  /** After one side was shut the other one can still read and write everything it could before, and once its own input
      ends, shutting it finishes the relay. */
  lemma ReverseStaysOpen(idle: nat, es: seq<Event>, isUp: bool, chunk: Bytes, n: nat)
    requires Run(idle, es).outcome.Running? && Side(Run(idle, es), isUp).shut
    ensures var s := Run(idle, es);
            var d := Side(s, !isUp);
            && !d.shut
            && (!d.eof && d.remaining == [] && |chunk| <= BUFFER ==> Enabled(idle, s, Read(!isUp, chunk)))
            && (d.remaining != [] && n <= |d.remaining| ==> Enabled(idle, s, Write(!isUp, n)))
            && (d.eof ==> Enabled(idle, s, Shutdown(!isUp)) && Run(idle, es + [Shutdown(!isUp)]).outcome.Finished?)
  {
    RunKeepsInv(idle, es);
    assert (es + [Shutdown(!isUp)])[..|es|] == es;
  }

  lemma RunSnoc(idle: nat, es: seq<Event>, e: Event)
    ensures Run(idle, es + [e]) == Step(idle, Run(idle, es), e)
  {
    assert (es + [e])[..|es|] == es;
  }

  /** Whatever the open side has to carry still arrives in full. */
  lemma ReverseStillDelivers(idle: nat, es: seq<Event>, isUp: bool, chunk: Bytes) returns (more: seq<Event>)
    requires Run(idle, es).outcome.Running? && Side(Run(idle, es), isUp).shut
    requires !Side(Run(idle, es), !isUp).eof && 0 < |chunk| <= BUFFER
    ensures Run(idle, more).outcome.Running? && es <= more
    ensures Side(Run(idle, more), !isUp).given == Side(Run(idle, es), !isUp).taken + chunk
  {
    hide Run;
    RunKeepsInv(idle, es);
    more := Drain(idle, es, !isUp);
    more := Carry(idle, more, !isUp, chunk);
  }

  lemma Drain(idle: nat, es: seq<Event>, isUp: bool) returns (more: seq<Event>)
    requires Run(idle, es).outcome.Running? && !Side(Run(idle, es), isUp).shut
    ensures Run(idle, more).outcome.Running? && es <= more
    ensures var d := Side(Run(idle, es), isUp);
            Side(Run(idle, more), isUp) == Direction(d.taken, d.taken, [], d.eof, false)
  {
    RunKeepsInv(idle, es);
    hide Run;
    more := es;
    var d := Side(Run(idle, es), isUp);
    if d.remaining != [] {
      more := es + [Write(isUp, |d.remaining|)];
      RunSnoc(idle, es, Write(isUp, |d.remaining|));
    }
  }

  lemma Carry(idle: nat, es: seq<Event>, isUp: bool, chunk: Bytes) returns (more: seq<Event>)
    requires Run(idle, es).outcome.Running? && 0 < |chunk| <= BUFFER
    requires var d := Side(Run(idle, es), isUp); d == Direction(d.taken, d.taken, [], false, false)
    ensures Run(idle, more).outcome.Running? && es <= more
    ensures Side(Run(idle, more), isUp).given == Side(Run(idle, es), isUp).taken + chunk
  {
    hide Run;
    var read := es + [Read(isUp, chunk)];
    RunSnoc(idle, es, Read(isUp, chunk));
    RunSnoc(idle, read, Write(isUp, |chunk|));
    more := read + [Write(isUp, |chunk|)];
  }

  /** The end of one input leaves the reverse direction alone. */
  lemma HalfCloseKeepsTheReverse(idle: nat, s: State, isUp: bool, e: Event)
    requires e in {Read(isUp, []), Shutdown(isUp)} && !Side(s, !isUp).shut
    ensures var t := Step(idle, s, e);
            Side(t, !isUp) == Side(s, !isUp) && t.outcome == s.outcome && t.activity == s.activity
  {}

  // ---------------------------------------------------------------- one direction of a run

  predicate IsStep(e: Event) { e.Read? || e.Write? || e.Shutdown? || e.IoError? }

  /** A copy loop that did `steps`, one after the other. */
  function Replay(steps: seq<Event>): Direction
    requires Legal(steps)
    decreases |steps|, 1
  {
    if steps == [] then FRESH else AfterDoing(Replay(steps[..|steps| - 1]), steps[|steps| - 1])
  }

  predicate Legal(steps: seq<Event>)
    decreases |steps|, 0
  {
    steps != [] ==> Legal(steps[..|steps| - 1]) && CanDo(Replay(steps[..|steps| - 1]), steps[|steps| - 1])
  }

  /** What one side did in a run. */
  function StepsOf(idle: nat, es: seq<Event>, isUp: bool): seq<Event> {
    if es == [] then []
    else
      var before, e := es[..|es| - 1], es[|es| - 1];
      StepsOf(idle, before, isUp)
      + if IsStep(e) && e.isUp == isUp && Enabled(idle, Run(idle, before), e) then [e] else []
  }

  lemma LegalSnoc(steps: seq<Event>, e: Event)
    requires Legal(steps) && CanDo(Replay(steps), e)
    ensures Legal(steps + [e]) && Replay(steps + [e]) == AfterDoing(Replay(steps), e)
  {
    assert (steps + [e])[..|steps|] == steps;
  }

  /** Each side of a run is a copy loop on its own: the sides share nothing but the clock and the outcome. */
  lemma {:induction false} SideIsItsSteps(idle: nat, es: seq<Event>, isUp: bool)
    ensures Legal(StepsOf(idle, es, isUp)) && Side(Run(idle, es), isUp) == Replay(StepsOf(idle, es, isUp))
  {
    if es != [] {
      var before, e := es[..|es| - 1], es[|es| - 1];
      SideIsItsSteps(idle, before, isUp);
      var steps := StepsOf(idle, before, isUp);
      if IsStep(e) && e.isUp == isUp && Enabled(idle, Run(idle, before), e) {
        LegalSnoc(steps, e);
      } else {
        assert steps + [] == steps;
      }
      hide Run, Replay, Legal;
    }
  }

  /** The steps after which a copy loop goes on. */
  predicate GoesOn(e: Event) { (e.Write? ==> e.n > 0) && !e.IoError? }

  /** A copy loop on side `isUp` that does `steps`; only its last step may end it. */
  predicate Performs(steps: seq<Event>, isUp: bool) {
    && Legal(steps)
    && (forall k | 0 <= k < |steps| :: IsStep(steps[k]) && steps[k].isUp == isUp)
    && (forall k | 0 <= k < |steps| - 1 :: GoesOn(steps[k]))
  }

  /** Conversely, whatever one copy loop can do on its own is a run of the relay. */
  lemma {:induction false} StepsAreARun(idle: nat, steps: seq<Event>, isUp: bool)
    requires Performs(steps, isUp)
    ensures var s := Run(idle, steps);
            && Side(s, isUp) == Replay(steps) && Side(s, !isUp) == FRESH
            && (s.outcome.Running? <==> steps == [] || GoesOn(steps[|steps| - 1]))
            && (!s.outcome.Running? ==> s.outcome.Failed?)
  {
    if steps != [] {
      var n := |steps| - 1;
      assert n > 0 ==> steps[..n][n - 1] == steps[n - 1] && GoesOn(steps[n - 1]);
      StepsAreARun(idle, steps[..n], isUp);
    }
  }

  // ---------------------------------------------------------------- the copy loop itself

  /** A reader that yields its chunks in turn and then reports end of input; `None` is an error. */
  class Source {
    const chunks: seq<Option<Bytes>>
    var at: nat

    constructor (chunks: seq<Option<Bytes>>)
      requires Bounded(chunks)
      ensures Valid() && Taken() == [] && at == 0
    {
      this.chunks := chunks;
      at := 0;
    }

    ghost predicate Valid()
      reads this
    {
      at <= |chunks| && Bounded(chunks)
    }

    /** All bytes read so far. */
    ghost function Taken(): Bytes
      requires Valid()
      reads this
    {
      Joined(chunks[..at])
    }

    method Read() returns (r: Option<Bytes>)
      requires Valid()
      modifies this
      ensures Valid() && (r.Some? ==> |r.value| <= BUFFER)
      ensures Taken() == old(Taken()) + (if r.Some? then r.value else [])
      ensures at == if old(at) < |chunks| then old(at) + 1 else old(at)
      ensures r == if old(at) < |chunks| then chunks[old(at)] else Some([])
    {
      if at == |chunks| {
        return Some([]);
      }
      r := chunks[at];
      at := at + 1;
      assert chunks[..at][..at - 1] == chunks[..at - 1];
    }
  }

  /** No read returns more than the buffer holds. */
  ghost predicate Bounded(chunks: seq<Option<Bytes>>) {
    forall i | 0 <= i < |chunks| && chunks[i].Some? :: |chunks[i].value| <= BUFFER
  }

  function Joined(chunks: seq<Option<Bytes>>): Bytes {
    if chunks == [] then []
    else
      var c := chunks[|chunks| - 1];
      Joined(chunks[..|chunks| - 1]) + if c.Some? then c.value else []
  }

  /** Everything up to the first end of input or error. */
  function UntilEnd(chunks: seq<Option<Bytes>>): Bytes {
    if chunks == [] || chunks[0] == None || chunks[0] == Some([]) then [] else chunks[0].value + UntilEnd(chunks[1..])
  }

  /** After `at` reads, what was read and what is still to come make up the input up to its end. */
  ghost predicate Ahead(chunks: seq<Option<Bytes>>, at: nat)
    requires at <= |chunks|
  {
    Joined(chunks[..at]) + UntilEnd(chunks[at..]) == UntilEnd(chunks)
  }

  lemma AllAhead(chunks: seq<Option<Bytes>>)
    ensures Ahead(chunks, 0)
  {
    assert chunks[..0] == [] && chunks[0..] == chunks;
  }

  lemma AheadStep(chunks: seq<Option<Bytes>>, at: nat)
    requires at <= |chunks| && Ahead(chunks, at)
    ensures at == |chunks| || chunks[at] == Some([]) ==> Joined(chunks[..at]) == UntilEnd(chunks)
    ensures at < |chunks| && chunks[at].Some? && chunks[at].value != [] ==> Ahead(chunks, at + 1)
  {
    hide Joined, UntilEnd;
    UntilEndStep(chunks, at);
    if at < |chunks| && chunks[at].Some? {
      JoinedStep(chunks, at);
      Reassociate(Joined(chunks[..at]), chunks[at].value, UntilEnd(chunks[at + 1..]));
    }
  }

  lemma UntilEndStep(chunks: seq<Option<Bytes>>, at: nat)
    requires at <= |chunks|
    ensures UntilEnd(chunks[at..]) ==
            if at == |chunks| || chunks[at] == None || chunks[at] == Some([]) then []
            else chunks[at].value + UntilEnd(chunks[at + 1..])
  {}

  lemma JoinedStep(chunks: seq<Option<Bytes>>, at: nat)
    requires at < |chunks| && chunks[at].Some?
    ensures Joined(chunks[..at + 1]) == Joined(chunks[..at]) + chunks[at].value
  {
    assert chunks[..at + 1][..at] == chunks[..at];
  }

  lemma Reassociate(a: Bytes, b: Bytes, c: Bytes)
    ensures a + (b + c) == (a + b) + c
  {}

  /** A writer that takes part of what it is offered: `accept(i)` bounds the i-th write, `None` is an error. */
  class Sink {
    var bytes: Bytes
    var closed: bool
    var calls: nat
    const accept: nat -> Option<nat>
    const shuts: bool

    constructor (accept: nat -> Option<nat>, shuts: bool)
      ensures bytes == [] && !closed && calls == 0 && this.accept == accept && this.shuts == shuts
    {
      bytes, closed, calls := [], false, 0;
      this.accept, this.shuts := accept, shuts;
    }

    method Write(data: Bytes) returns (n: Option<nat>)
      modifies this
      ensures calls == old(calls) + 1 && closed == old(closed)
      ensures n == (match accept(old(calls)) case None => None case Some(k) => Some(Min(k, |data|) as nat))
      ensures bytes == old(bytes) + data[..if n.Some? then n.value else 0]
    {
      n := match accept(calls) case None => None case Some(k) => Some(Min(k, |data|) as nat);
      bytes := bytes + data[..if n.Some? then n.value else 0];
      calls := calls + 1;
    }

    method Shutdown() returns (ok: bool)
      modifies this`closed
      ensures ok == shuts && closed == (old(closed) || ok)
    {
      ok := shuts;
      closed := closed || ok;
    }
  }

  /** The atomic; `clock(i)` is the time of its i-th store. */
  class Activity {
    var value: nat
    var stores: nat
    const clock: nat -> nat

    constructor (clock: nat -> nat)
      ensures Valid() && stores == 0 && this.clock == clock
    {
      value, stores := 1, 0;
      this.clock := clock;
    }

    ghost predicate Valid()
      reads this
    {
      value == if stores == 0 then 1 else clock(stores - 1) / MS + 1
    }

    method Store()
      requires Valid()
      modifies this
      ensures Valid() && stores == old(stores) + 1
    {
      value := clock(stores) / MS + 1;
      stores := stores + 1;
    }
  }

  datatype Copied = Done | WriteZero | Broken

  /** How often bytes moved. */
  function Moves(steps: seq<Event>): nat {
    if steps == [] then 0 else Moves(steps[..|steps| - 1]) + if Transfers(steps[|steps| - 1]) then 1 else 0
  }

  /** A copy loop that has done `steps`, has come to `d` and can go on. */
  ghost predicate Follows(steps: seq<Event>, isUp: bool, d: Direction) {
    Performs(steps, isUp) && Replay(steps) == d && (steps != [] ==> GoesOn(steps[|steps| - 1]))
  }

  lemma Did(steps: seq<Event>, isUp: bool, d: Direction, e: Event)
    requires Follows(steps, isUp, d) && CanDo(d, e) && e.isUp == isUp
    ensures Performs(steps + [e], isUp) && Legal(steps + [e]) && Replay(steps + [e]) == AfterDoing(d, e)
    ensures Moves(steps + [e]) == Moves(steps) + if Transfers(e) then 1 else 0
    ensures GoesOn(e) ==> Follows(steps + [e], isUp, AfterDoing(d, e))
  {
    LegalSnoc(steps, e);
    assert (steps + [e])[..|steps|] == steps;
    hide Legal, Replay;
  }

  lemma NoStepsYet(isUp: bool)
    ensures Follows([], isUp, FRESH) && Moves([]) == 0
  {}

  /** `copy_direction`: on success the writer was closed after receiving exactly the input up to its end; otherwise it
      received a prefix of what was read. `steps` is the same call as events of the machine: a copy loop that took and
      gave these very bytes, with one store of the time for each chunk read and each write that moved bytes. */
  method CopyDirection(reader: Source, writer: Sink, activity: Activity, ghost isUp: bool)
    returns (r: Copied, ghost steps: seq<Event>)
    requires reader.Valid() && activity.Valid() && reader.at == 0
    modifies reader, writer, activity
    ensures reader.Valid() && activity.Valid() && activity.stores == old(activity.stores) + Moves(steps)
    ensures Performs(steps, isUp) && Legal(steps) && Replay(steps).taken == reader.Taken()
    ensures writer.bytes == old(writer.bytes) + Replay(steps).given && (r.Done? <==> Replay(steps).shut)
    ensures r.Done? ==> writer.bytes == old(writer.bytes) + UntilEnd(reader.chunks) && writer.closed
    ensures !r.Done? ==> old(writer.bytes) <= writer.bytes <= old(writer.bytes) + reader.Taken()
    ensures r.WriteZero? ==>
              writer.calls > 0 && writer.accept(writer.calls - 1) == Some(0) && writer.closed == old(writer.closed)
  {
    assert reader.chunks[..0] == [] && reader.Taken() == [];
    hide UntilEnd, Joined, Bounded, Legal, Replay, Moves, Performs, Follows, Transfers, GoesOn, Ahead;
    steps := [];
    ghost var start := writer.bytes;
    NoStepsYet(isUp);
    AllAhead(reader.chunks);
    while true
      invariant reader.Valid() && activity.Valid() && activity.stores == old(activity.stores) + Moves(steps)
      invariant Follows(steps, isUp, Direction(reader.Taken(), reader.Taken(), [], false, false))
      invariant writer.bytes == start + reader.Taken() && writer.closed == old(writer.closed)
      invariant Ahead(reader.chunks, reader.at)
      decreases |reader.chunks| - reader.at
    {
      ghost var taken := reader.Taken();
      AheadStep(reader.chunks, reader.at);
      var n := reader.Read();
      if n.None? {
        Fails(steps, isUp, Direction(taken, taken, [], false, false));
        steps := steps + [IoError(isUp)];
        return Broken, steps;
      }
      Reads(steps, isUp, taken, n.value);
      steps := steps + [Read(isUp, n.value)];
      if |n.value| == 0 {
        r, steps := CloseWriter(writer, steps, taken, isUp);
        return;
      }
      activity.Store();
      var wrote;
      wrote, steps := WriteChunk(writer, activity, n.value, steps, taken, start, isUp);
      Reassociate(start, taken, n.value);
      if !wrote.Done? {
        Within(start, taken, n.value, writer.bytes);
        return wrote, steps;
      }
    }
  }

  /** `writer.shutdown()` at the end of the input. */
  method CloseWriter(writer: Sink, ghost before: seq<Event>, ghost taken: Bytes, ghost isUp: bool)
    returns (r: Copied, ghost steps: seq<Event>)
    requires Follows(before, isUp, Direction(taken, taken, [], true, false))
    modifies writer`closed
    ensures Performs(steps, isUp) && Legal(steps) && Moves(steps) == Moves(before)
    ensures Replay(steps) == Direction(taken, taken, [], true, r.Done?)
    ensures r.Done? || r.Broken?
    ensures writer.closed == (old(writer.closed) || r.Done?)
  {
    hide Legal, Replay, Moves, Performs, Follows;
    var ok := writer.Shutdown();
    if ok {
      Closes(before, isUp, Direction(taken, taken, [], true, false));
      return Done, before + [Shutdown(isUp)];
    }
    Fails(before, isUp, Direction(taken, taken, [], true, false));
    return Broken, before + [IoError(isUp)];
  }

  lemma Within(start: Bytes, taken: Bytes, chunk: Bytes, bytes: Bytes)
    requires start + taken <= bytes <= start + taken + chunk
    ensures start <= bytes <= start + (taken + chunk)
  {
    assert start <= start + taken;
  }

  /** The inner loop: `remaining` shrinks with every write. */
  method WriteChunk(writer: Sink, activity: Activity, chunk: Bytes, ghost before: seq<Event>, ghost taken: Bytes,
      ghost start: Bytes, ghost isUp: bool)
    returns (r: Copied, ghost steps: seq<Event>)
    requires activity.Valid() && writer.bytes == start + taken
    requires Follows(before, isUp, Direction(taken + chunk, taken, chunk, false, false))
    modifies writer, activity
    ensures activity.Valid() && activity.stores - old(activity.stores) == Moves(steps) - Moves(before)
    ensures Legal(steps) && writer.bytes == start + Replay(steps).given && writer.closed == old(writer.closed)
    ensures old(writer.bytes) <= writer.bytes <= old(writer.bytes) + chunk
    ensures r.Done? ==> writer.bytes == old(writer.bytes) + chunk
    ensures r.Done? ==> Follows(steps, isUp, Direction(taken + chunk, taken + chunk, [], false, false))
    ensures !r.Done? ==> Performs(steps, isUp) && Replay(steps).taken == taken + chunk && !Replay(steps).shut
    ensures r.WriteZero? ==> writer.calls > 0 && writer.accept(writer.calls - 1) == Some(0)
  {
    hide Legal, Replay, Moves, Performs, Follows, CanDo, AfterDoing, AfterWrite;
    steps := before;
    ghost var given := taken;
    var remaining := chunk;
    HasDone(steps, isUp, Direction(taken + chunk, taken, chunk, false, false));
    while |remaining| != 0
      invariant activity.Valid() && activity.stores - old(activity.stores) == Moves(steps) - Moves(before)
      invariant Follows(steps, isUp, Direction(taken + chunk, given, remaining, false, false))
      invariant given + remaining == taken + chunk && writer.bytes == start + given && taken <= given
      invariant writer.closed == old(writer.closed)
      decreases |remaining|
    {
      Prefixes(start, taken, given, remaining, chunk);
      var written := writer.Write(remaining);
      if written.None? {
        Fails(steps, isUp, Direction(taken + chunk, given, remaining, false, false));
        steps := steps + [IoError(isUp)];
        return Broken, steps;
      }
      var n := written.value;
      Writes(steps, isUp, taken + chunk, given, remaining, n);
      Appends(start, given, remaining, n);
      steps := steps + [Write(isUp, n)];
      if n == 0 {
        return WriteZero, steps;
      }
      activity.Store();
      given := given + remaining[..n];
      remaining := remaining[n..];
    }
    Prefixes(start, taken, given, remaining, chunk);
    assert given == taken + chunk && remaining == [];
    HasDone(steps, isUp, Direction(taken + chunk, given, remaining, false, false));
    r := Done;
  }

  lemma Prefixes(start: Bytes, taken: Bytes, given: Bytes, remaining: Bytes, chunk: Bytes)
    requires given + remaining == taken + chunk && taken <= given
    ensures start + taken <= start + given <= start + taken + chunk
    ensures remaining == [] ==> start + given == start + taken + chunk
  {
    assert start + given + remaining == start + (given + remaining) == start + taken + chunk;
    assert given == taken + given[|taken|..];
    assert start + given == start + taken + given[|taken|..];
  }

  lemma Appends(start: Bytes, given: Bytes, remaining: Bytes, n: nat)
    requires n <= |remaining|
    ensures start + given + remaining[..n] == start + (given + remaining[..n])
    ensures given + remaining[..n] + remaining[n..] == given + remaining
    ensures n == 0 ==> given + remaining[..n] == given
  {}

  lemma Writes(steps: seq<Event>, isUp: bool, taken: Bytes, given: Bytes, remaining: Bytes, n: nat)
    requires Follows(steps, isUp, Direction(taken, given, remaining, false, false)) && remaining != []
        && n <= |remaining|
    ensures var e, d := Write(isUp, n), Direction(taken, given + remaining[..n], remaining[n..], false, false);
            && Performs(steps + [e], isUp) && Legal(steps + [e]) && Replay(steps + [e]) == d
            && Moves(steps + [e]) == Moves(steps) + (if n > 0 then 1 else 0)
            && (n > 0 ==> Follows(steps + [e], isUp, d))
  {
    hide Follows, Performs, Legal, Replay, Moves;
    Did(steps, isUp, Direction(taken, given, remaining, false, false), Write(isUp, n));
  }

  lemma Fails(steps: seq<Event>, isUp: bool, d: Direction)
    requires Follows(steps, isUp, d) && !d.shut
    ensures var e := IoError(isUp);
            && Performs(steps + [e], isUp) && Legal(steps + [e]) && Replay(steps + [e]) == d
            && Moves(steps + [e]) == Moves(steps)
  {
    hide Follows, Performs, Legal, Replay, Moves;
    Did(steps, isUp, d, IoError(isUp));
  }

  /** A read from a loop at rest: a chunk has to be written out, nothing means end of input. */
  lemma Reads(steps: seq<Event>, isUp: bool, taken: Bytes, chunk: Bytes)
    requires Follows(steps, isUp, Direction(taken, taken, [], false, false)) && |chunk| <= BUFFER
    ensures var e := Read(isUp, chunk);
            && Moves(steps + [e]) == Moves(steps) + (if chunk != [] then 1 else 0)
            && Follows(steps + [e], isUp,
                       if chunk == [] then Direction(taken, taken, [], true, false)
                       else Direction(taken + chunk, taken, chunk, false, false))
  {
    hide Follows, Performs, Legal, Replay, Moves;
    Did(steps, isUp, Direction(taken, taken, [], false, false), Read(isUp, chunk));
  }

  lemma Closes(steps: seq<Event>, isUp: bool, d: Direction)
    requires Follows(steps, isUp, d) && d.eof && !d.shut
    ensures var e := Shutdown(isUp);
            && Performs(steps + [e], isUp) && Legal(steps + [e]) && Replay(steps + [e]) == d.(shut := true)
            && Moves(steps + [e]) == Moves(steps)
  {
    hide Follows, Performs, Legal, Replay, Moves;
    Did(steps, isUp, d, Shutdown(isUp));
  }

  lemma HasDone(steps: seq<Event>, isUp: bool, d: Direction)
    requires Follows(steps, isUp, d)
    ensures Legal(steps) && Replay(steps) == d
  {}
}
