/** gui/src/traffic.rs: cumulative byte counters sampled into speeds and running totals.

    Instants are in nanoseconds, `f64` speeds are reals. */
module Traffic {
  import opened Common

  const HISTORY: nat := 60
  const U64_MAX: nat := 0xFFFF_FFFF_FFFF_FFFF

  datatype Speed = Speed(up: real, down: real)

  const STILL: Speed := Speed(0.0, 0.0)

  datatype Bytes2 = Bytes2(up: nat, down: nat)

  const ZERO: Bytes2 := Bytes2(0, 0)

  function Plus(a: Bytes2, b: Bytes2): Bytes2 { Bytes2(a.up + b.up, a.down + b.down) }

  datatype Data = Data(samples: seq<Speed>, total: Bytes2, previous: Option<Bytes2>, pending: Bytes2,
                       lastSample: Option<nat>, current: Speed, active: bool, version: nat)

  const INIT: Data := Data([], ZERO, None, ZERO, None, STILL, false, 0)

  datatype Snapshot = Snapshot(samples: seq<Speed>, total: Bytes2, current: Speed, peakUp: real, peakDown: real)

  function MaxReal(a: real, b: real): real { if a < b then b else a }

  function PeakUp(samples: seq<Speed>): real {
    if samples == [] then 0.0 else MaxReal(PeakUp(samples[..|samples| - 1]), samples[|samples| - 1].up)
  }

  function PeakDown(samples: seq<Speed>): real {
    if samples == [] then 0.0 else MaxReal(PeakDown(samples[..|samples| - 1]), samples[|samples| - 1].down)
  }

  function SnapshotOf(d: Data): Snapshot {
    Snapshot(d.samples, d.total, d.current, PeakUp(d.samples), PeakDown(d.samples))
  }

  /** The peaks are the largest speeds of the window, and never negative. */
  lemma {:induction false} PeaksAreMaxima(samples: seq<Speed>)
    ensures forall i | 0 <= i < |samples| :: samples[i].up <= PeakUp(samples) && samples[i].down <= PeakDown(samples)
    ensures PeakUp(samples) == 0.0 || exists i :: 0 <= i < |samples| && samples[i].up == PeakUp(samples)
    ensures PeakDown(samples) == 0.0 || exists i :: 0 <= i < |samples| && samples[i].down == PeakDown(samples)
    ensures PeakUp(samples) >= 0.0 && PeakDown(samples) >= 0.0
  {
    if samples != [] {
      var rest := samples[..|samples| - 1];
      PeaksAreMaxima(rest);
      assert forall i | 0 <= i < |rest| :: samples[i] == rest[i];
      assert samples[|samples| - 1].up <= PeakUp(samples);
    }
  }

  // ---------------------------------------------------------------- specification

  /** `push_sample`. */
  function PushSample(samples: seq<Speed>, s: Speed): seq<Speed> {
    (if |samples| == HISTORY then samples[1..] else samples) + [s]
  }

  function Saturating(total: nat, more: nat): nat { Min(total + more, U64_MAX) }

  /** Growth of the counters since the previous reading of the same session; a decrease counts as none. */
  function Growth(previous: Option<Bytes2>, reading: Bytes2): Bytes2 {
    if previous.None? then ZERO
    else Bytes2(Max(reading.up - previous.value.up, 0), Max(reading.down - previous.value.down, 0))
  }

  function Seconds(since: nat): real { since as real / SECOND as real }

  /** `record_at(None)`: no core is running. */
  function StopSpec(d: Data): Data {
    var changed := d.previous.Some? || d.current != STILL || d.active;
    d.(samples := if changed then PushSample(d.samples, STILL) else d.samples, previous := None, pending := ZERO,
       lastSample := None, current := STILL, active := false, version := if changed then d.version + 1 else d.version)
  }

  predicate Flushes(d: Data, now: nat) { d.lastSample.Some? && Age(now, d.lastSample.value) >= SECOND }

  function SpeedOf(bytes: Bytes2, since: nat): Speed
    requires since > 0
  {
    Speed(bytes.up as real / Seconds(since), bytes.down as real / Seconds(since))
  }

  /** `record_at(Some)`. */
  function ReadingSpec(d: Data, reading: Bytes2, now: nat): Data {
    var pending := Plus(d.pending, Growth(d.previous, reading));
    var e := d.(previous := Some(reading), active := true);
    if Flushes(d, now) then
      var speed := SpeedOf(pending, Age(now, d.lastSample.value));
      e.(total := Bytes2(Saturating(d.total.up, pending.up), Saturating(d.total.down, pending.down)), pending := ZERO,
         current := speed, lastSample := Some(now), samples := PushSample(d.samples, speed), version := d.version + 1)
    else e.(pending := pending, lastSample := if d.lastSample.None? then Some(now) else d.lastSample)
  }

  function ResetSpec(d: Data): Data {
    d.(previous := None, pending := ZERO, lastSample := None, current := STILL, active := false,
       version := if d.current != STILL then d.version + 1 else d.version)
  }

  // ---------------------------------------------------------------- the monitor

  class TrafficMonitor {
    var samples: seq<Speed>
    var totalUp: nat
    var totalDown: nat
    var previous: Option<Bytes2>
    var pending: Bytes2
    var lastSample: Option<nat>
    var current: Speed
    var active: bool
    var version: nat

    function Value(): Data
      reads this
    {
      Data(samples, Bytes2(totalUp, totalDown), previous, pending, lastSample, current, active, version)
    }

    constructor ()
      ensures Value() == INIT
    {
      samples, totalUp, totalDown, previous, pending := [], 0, 0, None, ZERO;
      lastSample, current, active, version := None, STILL, false, 0;
    }

    /** `push_sample`. */
    method Push(s: Speed)
      modifies this`samples
      ensures samples == PushSample(old(samples), s)
    {
      if |samples| == HISTORY {
        samples := samples[1..];
      }
      samples := samples + [s];
    }

    method RecordAt(cumulative: Option<Bytes2>, now: nat)
      modifies this
      ensures Value() == if cumulative.Some? then ReadingSpec(old(Value()), cumulative.value, now)
          else StopSpec(old(Value()))
    {
      hide PushSample;
      var changed := false;
      if cumulative.None? {
        if previous.Some? || current != STILL || active {
          current := STILL;
          active := false;
          Push(STILL);
          changed := true;
        }
        previous := None;
        pending := ZERO;
        lastSample := None;
      } else {
        var reading := cumulative.value;
        if previous.Some? {
          var p := previous.value;
          pending := Bytes2(pending.up + Max(reading.up - p.up, 0), pending.down + Max(reading.down - p.down, 0));
        }
        previous := Some(reading);
        active := true;
        var since := 0;
        if lastSample.Some? {
          since := Age(now, lastSample.value);
        } else {
          lastSample := Some(now);
        }
        if since >= SECOND {
          var secs := MaxReal(Seconds(since), 0.001);
          LongEnough(since);
          var speed := Speed(pending.up as real / secs, pending.down as real / secs);
          totalUp := Saturating(totalUp, pending.up);
          totalDown := Saturating(totalDown, pending.down);
          pending := ZERO;
          current := speed;
          lastSample := Some(now);
          Push(speed);
          changed := true;
        }
      }
      if changed {
        version := version + 1;
      }
    }

    method Reset()
      modifies this
      ensures Value() == ResetSpec(old(Value()))
    {
      previous := None;
      pending := ZERO;
      lastSample := None;
      var changed := current != STILL;
      current := STILL;
      active := false;
      if changed {
        version := version + 1;
      }
    }

    method TakeSnapshot() returns (s: Snapshot)
      ensures s == SnapshotOf(Value())
    {
      var up, down := 0.0, 0.0;
      for i := 0 to |samples|
        invariant up == PeakUp(samples[..i]) && down == PeakDown(samples[..i])
      {
        assert samples[..i + 1][..i] == samples[..i];
        up, down := MaxReal(up, samples[i].up), MaxReal(down, samples[i].down);
      }
      assert samples[..|samples|] == samples;
      s := Snapshot(samples, Bytes2(totalUp, totalDown), current, up, down);
    }
  }

  lemma LongEnough(since: nat)
    requires since >= SECOND
    ensures Seconds(since) >= 1.0
  {}

  // ---------------------------------------------------------------- runs

  datatype Event = Reading(reading: Bytes2, now: nat) | Stop | Reset

  function Step(d: Data, e: Event): Data {
    match e
    case Reading(r, now) => ReadingSpec(d, r, now)
    case Stop => StopSpec(d)
    case Reset => ResetSpec(d)
  }

  function Run(es: seq<Event>): Data {
    if es == [] then INIT else Step(Run(es[..|es| - 1]), es[|es| - 1])
  }

  // ---------------------------------------------------------------- the history, independently of the monitor

  /** A core is running: the last event was a reading. */
  predicate InSession(es: seq<Event>) { es != [] && es[|es| - 1].Reading? }

  /** The previous reading of the running session. */
  function Previous(es: seq<Event>): Option<Bytes2> {
    if InSession(es) then Some(es[|es| - 1].reading) else None
  }

  /** When the running interval began: at the first reading of the session, and again at every reading that comes at
      least a second later. */
  function Began(es: seq<Event>): Option<nat> {
    if !InSession(es) then None
    else
      var began, now := Began(es[..|es| - 1]), es[|es| - 1].now;
      if began.None? || Age(now, began.value) >= SECOND then Some(now) else began
  }

  /** What the last event let the counters grow. */
  function LastGrowth(es: seq<Event>): Bytes2 {
    if InSession(es) then Growth(Previous(es[..|es| - 1]), es[|es| - 1].reading) else ZERO
  }

  /** All growth between adjacent readings of one session. */
  function Grown(es: seq<Event>): Bytes2 {
    if es == [] then ZERO else Plus(Grown(es[..|es| - 1]), LastGrowth(es))
  }

  /** An interval that ended: the bytes it counted and how long it was. */
  datatype Flush = Flush(bytes: Bytes2, since: nat)

  /** The interval that the last event ended, if it ended one. */
  function Ended(es: seq<Event>): (f: Option<Flush>)
    ensures f.Some? ==> f.value.since >= SECOND
    decreases |es|, 0
  {
    if !InSession(es) then None
    else
      var before := es[..|es| - 1];
      var began := Began(before);
      if began.Some? && Age(es[|es| - 1].now, began.value) >= SECOND then
        Some(Flush(Plus(Waiting(before), LastGrowth(es)), Age(es[|es| - 1].now, began.value)))
      else None
  }

  /** Growth since the running interval began. */
  function Waiting(es: seq<Event>): Bytes2
    decreases |es|, 1
  {
    if !InSession(es) || Ended(es).Some? then ZERO else Plus(Waiting(es[..|es| - 1]), LastGrowth(es))
  }

  function Flushed(es: seq<Event>): seq<Flush> {
    if es == [] then []
    else Flushed(es[..|es| - 1]) + if Ended(es).Some? then [Ended(es).value] else []
  }

  function Sum(fs: seq<Flush>): Bytes2 {
    if fs == [] then ZERO else Plus(Sum(fs[..|fs| - 1]), fs[|fs| - 1].bytes)
  }

  /** Growth of intervals that were cut short by the end of their session. */
  function Dropped(es: seq<Event>): Bytes2 {
    if es == [] then ZERO
    else Plus(Dropped(es[..|es| - 1]), if InSession(es) then ZERO else Waiting(es[..|es| - 1]))
  }

  /** The end of a session by `Stop` shows as a sample of speed zero. */
  predicate ShowsZero(es: seq<Event>) { es != [] && es[|es| - 1].Stop? && InSession(es[..|es| - 1]) }

  /** Every sample ever recorded. */
  function Recorded(es: seq<Event>): seq<Speed> {
    if es == [] then []
    else
      Recorded(es[..|es| - 1])
      + if Ended(es).Some? then [SpeedOf(Ended(es).value.bytes, Ended(es).value.since)] else if ShowsZero(es) then
          [STILL] else []
  }

  /** The speed of the last interval of the running session. */
  function Current(es: seq<Event>): Speed {
    if !InSession(es) then STILL
    else if Ended(es).Some? then SpeedOf(Ended(es).value.bytes, Ended(es).value.since)
    else Current(es[..|es| - 1])
  }

  function Versions(es: seq<Event>): nat {
    if es == [] then 0
    else
      var before := es[..|es| - 1];
      Versions(before)
      + if Ended(es).Some? || ShowsZero(es) || (es[|es| - 1].Reset? && Current(before) != STILL) then 1 else 0
  }

  function Capped(b: Bytes2): Bytes2 { Bytes2(Min(b.up, U64_MAX), Min(b.down, U64_MAX)) }

  /** The last (at most 60) of a list. */
  function LastOf(s: seq<Speed>): seq<Speed> { if |s| <= HISTORY then s else s[|s| - HISTORY..] }

  lemma PushIsLast(all: seq<Speed>, s: Speed)
    ensures PushSample(LastOf(all), s) == LastOf(all + [s])
  {}

  /** The monitor is a function of its history: every field, after every run. */
  lemma {:induction false} RunIsHistory(es: seq<Event>)
    ensures Run(es) == Data(LastOf(Recorded(es)), Capped(Sum(Flushed(es))), Previous(es), Waiting(es), Began(es),
                            Current(es), InSession(es), Versions(es))
  {
    hide PushSample, LastOf, SpeedOf, Growth, Sum;
    if es == [] {
      assert Sum([]) == ZERO && LastOf([]) == [] by { NothingYet(); }
    } else {
      var before, e := es[..|es| - 1], es[|es| - 1];
      RunIsHistory(before);
      SumAppend(Flushed(before), Ended(es));
      PushIsLast(Recorded(before), STILL);
      if Ended(es).Some? {
        PushIsLast(Recorded(before), SpeedOf(Ended(es).value.bytes, Ended(es).value.since));
      }
      assert Recorded(before) + [] == Recorded(before);
      assert !InSession(before) ==> Current(before) == STILL && Began(before) == None;
      assert InSession(before) ==> Began(before).Some?;
    }
  }

  lemma NothingYet()
    ensures Sum([]) == ZERO && LastOf([]) == []
  {}

  lemma SumAppend(fs: seq<Flush>, f: Option<Flush>)
    ensures Sum(fs + if f.Some? then [f.value] else []) == if f.Some? then Plus(Sum(fs), f.value.bytes) else Sum(fs)
  {
    if f.Some? {
      assert (fs + [f.value])[..|fs|] == fs;
    } else {
      assert fs + [] == fs;
    }
  }

  /** Nothing is lost or counted twice: flushed, pending and dropped bytes add up to all growth; the totals are the
      flushed bytes, up to saturation. */
  lemma BytesAreConserved(es: seq<Event>)
    ensures Plus(Plus(Sum(Flushed(es)), Run(es).pending), Dropped(es)) == Grown(es)
    ensures Run(es).total == Capped(Sum(Flushed(es)))
  {
    RunIsHistory(es);
    GrowthIsSplit(es);
    hide Run, Sum, Flushed, Dropped, Grown, Waiting;
  }

  lemma {:induction false} GrowthIsSplit(es: seq<Event>)
    ensures Plus(Plus(Sum(Flushed(es)), Waiting(es)), Dropped(es)) == Grown(es)
  {
    hide Sum, Flushed, Waiting, Dropped, Grown, Plus;
    if es == [] {
      NothingIsSplit(es);
      NothingYet();
      NothingAdded(ZERO, ZERO);
    } else {
      GrowthIsSplit(es[..|es| - 1]);
      SplitGrows(es);
    }
  }

  lemma NothingAdded(b: Bytes2, none: Bytes2)
    requires none == ZERO
    ensures Plus(b, none) == b
  {}

  lemma NothingIsSplit(es: seq<Event>)
    requires es == []
    ensures Flushed(es) == [] && Waiting(es) == Dropped(es) == Grown(es) == ZERO
  {}

  lemma SplitGrows(es: seq<Event>)
    requires es != []
    requires var b := es[..|es| - 1]; Plus(Plus(Sum(Flushed(b)), Waiting(b)), Dropped(b)) == Grown(b)
    ensures Plus(Plus(Sum(Flushed(es)), Waiting(es)), Dropped(es)) == Grown(es)
  {
    hide Sum, Growth, Plus, Ended, Waiting, InSession, LastGrowth;
    var b := es[..|es| - 1];
    assert Flushed(es) == Flushed(b) + if Ended(es).Some? then [Ended(es).value] else [];
    assert Dropped(es) == Plus(Dropped(b), if InSession(es) then ZERO else Waiting(b));
    assert Grown(es) == Plus(Grown(b), LastGrowth(es));
    SessionGrowth(es);
    SumAppend(Flushed(b), Ended(es));
    Balance(Sum(Flushed(b)), Waiting(b), Dropped(b), LastGrowth(es));
  }

  /** One event moves bytes between the four accounts in one of three ways. */
  lemma Balance(flushed: Bytes2, waiting: Bytes2, dropped: Bytes2, growth: Bytes2)
    ensures var all := Plus(Plus(flushed, waiting), dropped);
            && Plus(Plus(flushed, ZERO), Plus(dropped, waiting)) == Plus(all, ZERO)
            && Plus(Plus(Plus(flushed, Plus(waiting, growth)), ZERO), Plus(dropped, ZERO)) == Plus(all, growth)
            && Plus(Plus(flushed, Plus(waiting, growth)), Plus(dropped, ZERO)) == Plus(all, growth)
  {}

  /** Only readings let the counters grow, and the interval a reading ends takes all that was waiting. */
  lemma SessionGrowth(es: seq<Event>)
    requires es != []
    ensures !InSession(es) ==> LastGrowth(es) == ZERO && Ended(es) == None
    ensures Ended(es).Some? ==> Ended(es).value.bytes == Plus(Waiting(es[..|es| - 1]), LastGrowth(es))
    ensures Waiting(es) ==
            if !InSession(es) || Ended(es).Some? then ZERO else Plus(Waiting(es[..|es| - 1]), LastGrowth(es))
  {
    hide Growth;
  }

  /** Speed times interval gives back the bytes, for every flush; intervals last at least a second. */
  lemma {:induction false} SpeedsExplainBytes(es: seq<Event>)
    ensures forall i | 0 <= i < |Flushed(es)| :: Explained(Flushed(es)[i])
  {
    hide Explained, Ended;
    if es != [] {
      SpeedsExplainBytes(es[..|es| - 1]);
      if Ended(es).Some? {
        FlushExplained(Ended(es).value);
      }
    }
  }

  ghost predicate Explained(f: Flush) {
    && f.since >= SECOND
    && SpeedOf(f.bytes, f.since).up * Seconds(f.since) == f.bytes.up as real
    && SpeedOf(f.bytes, f.since).down * Seconds(f.since) == f.bytes.down as real
  }

  lemma FlushExplained(f: Flush)
    requires f.since >= SECOND
    ensures Explained(f)
  {}

  /** The history is always the last sixty recorded samples, none of them negative. */
  lemma HistoryIsTheLastSixty(es: seq<Event>)
    ensures Run(es).samples == LastOf(Recorded(es)) && |Run(es).samples| <= HISTORY
    ensures forall i | 0 <= i < |Run(es).samples| :: Run(es).samples[i].up >= 0.0 && Run(es).samples[i].down >= 0.0
  {
    hide Run, Recorded;
    RunIsHistory(es);
    SpeedsNotNegative(es);
    var all, samples := Recorded(es), Run(es).samples;
    forall i | 0 <= i < |samples| ensures samples[i] in all {
      assert samples[i] == all[|all| - |samples| + i];
    }
  }

  lemma {:induction false} SpeedsNotNegative(es: seq<Event>)
    ensures forall i | 0 <= i < |Recorded(es)| :: Recorded(es)[i].up >= 0.0 && Recorded(es)[i].down >= 0.0
  {
    hide Ended, SpeedOf;
    if es != [] {
      SpeedsNotNegative(es[..|es| - 1]);
      if Ended(es).Some? {
        SpeedNotNegative(Ended(es).value.bytes, Ended(es).value.since);
      }
    }
  }

  lemma SpeedNotNegative(bytes: Bytes2, since: nat)
    requires since > 0
    ensures SpeedOf(bytes, since).up >= 0.0 && SpeedOf(bytes, since).down >= 0.0
  {
    assert Seconds(since) > 0.0;
  }

  /** Whoever sees the same version twice has missed nothing: equal versions of one run mean equal snapshots. */
  lemma {:induction false} EqualVersionsMeanEqualSnapshots(es: seq<Event>, more: seq<Event>)
    ensures Run(es).version <= Run(es + more).version
    ensures Run(es).version == Run(es + more).version ==> SnapshotOf(Run(es)) == SnapshotOf(Run(es + more))
  {
    if more == [] {
      assert es + more == es;
    } else {
      var init := more[..|more| - 1];
      EqualVersionsMeanEqualSnapshots(es, init);
      assert (es + more)[..|es + more| - 1] == es + init;
      StepVersion(Run(es + init), more[|more| - 1]);
      hide Run, Step, SnapshotOf;
    }
  }

  lemma StepVersion(d: Data, e: Event)
    ensures d.version <= Step(d, e).version <= d.version + 1
    ensures d.version == Step(d, e).version ==> SnapshotOf(d) == SnapshotOf(Step(d, e))
  {
    hide PushSample, SpeedOf, PeakUp, PeakDown;
  }

  // ---------------------------------------------------------------- the version counter

  /** What the code does step by step: a change of the data first, and the increase of the counter only after the lock
      was released, so several threads may still owe theirs. */
  datatype Op = Update(event: Event) | Bump

  /** `data.version` counts all changes; `owed` of them are not in the counter yet. */
  datatype Published = Published(data: Data, owed: nat)

  function Version(p: Published): int { p.data.version - p.owed }

  function OpStep(p: Published, op: Op): Published {
    match op
    case Update(e) => Published(Step(p.data, e), p.owed + Max(Step(p.data, e).version - p.data.version, 0))
    case Bump => if p.owed > 0 then p.(owed := p.owed - 1) else p
  }

  function Publish(ops: seq<Op>): Published {
    if ops == [] then Published(INIT, 0) else OpStep(Publish(ops[..|ops| - 1]), ops[|ops| - 1])
  }

  function Updates(ops: seq<Op>): seq<Event> {
    if ops == [] then []
    else
      var op := ops[|ops| - 1];
      Updates(ops[..|ops| - 1]) + if op.Update? then [op.event] else []
  }

  lemma {:induction false} PublishedIsRun(ops: seq<Op>)
    ensures Publish(ops).data == Run(Updates(ops)) && 0 <= Version(Publish(ops))
  {
    hide Step;
    if ops != [] {
      var before, op := ops[..|ops| - 1], ops[|ops| - 1];
      PublishedIsRun(before);
      if op.Update? {
        assert (Updates(before) + [op.event])[..|Updates(before)|] == Updates(before);
        StepVersion(Run(Updates(before)), op.event);
      } else {
        assert Updates(before) + [] == Updates(before);
      }
    }
  }

  lemma OpGrows(p: Published, op: Op)
    ensures Version(p) <= Version(OpStep(p, op)) && p.data.version <= OpStep(p, op).data.version
    ensures p.data.version == OpStep(p, op).data.version ==> SnapshotOf(p.data) == SnapshotOf(OpStep(p, op).data)
  {
    hide Step, SnapshotOf;
    if op.Update? {
      StepVersion(p.data, op.event);
    }
  }

  lemma {:induction false} VersionsOnlyGrow(ops: seq<Op>, more: seq<Op>)
    ensures Version(Publish(ops)) <= Version(Publish(ops + more))
    ensures Publish(ops).data.version <= Publish(ops + more).data.version
    ensures Publish(ops).data.version == Publish(ops + more).data.version ==>
              SnapshotOf(Publish(ops).data) == SnapshotOf(Publish(ops + more).data)
  {
    hide OpStep, SnapshotOf, Version;
    if more == [] {
      assert ops + more == ops;
    } else {
      var init, op := more[..|more| - 1], more[|more| - 1];
      VersionsOnlyGrow(ops, init);
      assert (ops + more)[..|ops + more| - 1] == ops + init;
      OpGrows(Publish(ops + init), op);
    }
  }

  /** A reader that takes a snapshot at any moment, even between a change and its increase of the counter, and later
      sees the same version again has the current data, unless some thread still owes an increase: then the version
      will change once more and the reader will look again. */
  lemma SameVersionIsCurrent(ops: seq<Op>, more: seq<Op>)
    requires Version(Publish(ops)) == Version(Publish(ops + more)) && Publish(ops + more).owed == 0
    ensures SnapshotOf(Publish(ops).data) == SnapshotOf(Publish(ops + more).data)
  {
    hide Publish, SnapshotOf;
    VersionsOnlyGrow(ops, more);
  }
}
