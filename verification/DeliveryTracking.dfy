/** Delivery feedback as the daemon keeps it, in place: the tracker of one link and the
    samples taken from successive peer reports. */
module DeliveryTracking {
  import opened Bytes
  import opened Common
  import opened Delivery
  import D = Delivery

  // ----- the tracker in place

  class DeliveryTracker {
    var factor: real
    var phase: Phase
    var lastStamp: Option<nat>
    var lastTick: Option<nat>
    var badWindows: nat
    var cleanWindows: nat
    var settleLeft: nat
    var holdUntil: Option<nat>
    var hold: nat
    var healthySince: Option<nat>

    ghost function View(): Tracker
      reads this
    {
      Tracker(factor, phase, lastStamp, lastTick, badWindows, cleanWindows, settleLeft, holdUntil, hold, healthySince)
    }

    constructor ()
      ensures View() == START && Inv(View())
    {
      factor, phase, lastStamp, lastTick := 1.0, Normal, None, None;
      badWindows, cleanWindows, settleLeft := 0, 0, 0;
      holdUntil, hold, healthySince := None, HOLD_BASE, None;
    }

    method Observe(now: nat, sample: Option<Sample>) returns (f: real)
      requires Inv(View()) && Later(View(), now)
      modifies this
      ensures View() == D.Observe(old(View()), now, sample)
      ensures Inv(View()) && Later(View(), now) && f == factor
    {
      ObserveInv(View(), now, sample);
      TickRecorded(View(), now, sample);
      var dt := if lastTick.Some? then Seconds(Since(now, lastTick.value)) else 0.0;
      lastTick := Some(now);
      if phase == HoldDown && (holdUntil.None? || now >= holdUntil.value) {
        phase := Recovering;
      }
      Judge(now, sample);
      Grow(now, sample.None?, dt);
      if phase == Normal && healthySince.Some? && Since(now, healthySince.value) >= RESET_AFTER {
        hold := HOLD_BASE;
      }
      f := factor;
    }

    method Judge(now: nat, sample: Option<Sample>)
      modifies this
      ensures View() == Judged(old(View()), now, sample)
    {
      if sample.Some? {
        if lastStamp != Some(sample.value.stamp) && Since(now, sample.value.stamp) < STALE_AFTER {
          lastStamp := Some(sample.value.stamp);
          EvaluateWindow(now, sample.value);
        }
      } else {
        badWindows := 0;
      }
    }

    method Grow(now: nat, idle: bool, dt: real)
      modifies this`factor, this`phase, this`healthySince
      ensures View() == Grown(old(View()), now, idle, dt)
    {
      if phase == Recovering && settleLeft == 0 {
        if idle || cleanWindows >= CLEAN_WINDOWS_TO_GROW {
          factor := Raised(factor, dt);
          if factor > 1.0 {
            factor := 1.0;
          }
          if factor >= 1.0 {
            phase := Normal;
            healthySince := Some(now);
          }
        }
      }
    }

    method EvaluateWindow(now: nat, s: Sample)
      modifies this
      ensures View() == D.EvaluateWindow(old(View()), now, s)
    {
      if settleLeft > 0 {
        settleLeft := settleLeft - 1;
        return;
      }
      var loaded := s.offered >= MIN_OFFERED;
      var ratio := if loaded then Clamp(s.delivered / s.offered, 0.0, 1.0) else 1.0;
      var bad := loaded && ratio < BAD_RATIO && s.offered - s.delivered >= MIN_SHORTFALL;
      if bad {
        badWindows := badWindows + 1;
        cleanWindows := 0;
      } else {
        badWindows := 0;
        cleanWindows := cleanWindows + 1;
      }
      if bad && (badWindows >= 2 || ratio < SEVERE_RATIO) {
        Cut(now, ratio);
      }
    }

    method Cut(now: nat, ratio: real)
      modifies this
      ensures View() == D.Cut(old(View()), now, ratio)
    {
      if phase == Recovering {
        hold := hold * 2;
        if hold > HOLD_MAX {
          hold := HOLD_MAX;
        }
      }
      factor := Reduced(factor, ratio);
      phase := HoldDown;
      holdUntil := Some(now + hold);
      settleLeft := SETTLE_WINDOWS;
      badWindows := 0;
      cleanWindows := 0;
      healthySince := None;
    }
  }

  // ----- samples from successive peer reports

  datatype Report = Report(stamp: nat, peerRx: nat, localTx: nat)

  /** Megabits per second for `count` bytes in `dt` nanoseconds. */
  function Mbps(count: nat, dt: nat): real
    requires dt > 0
  {
    count as real * 8.0 / Seconds(dt) / 1_000_000.0
  }

  /** Whether two successive reports bound a window that can be judged. */
  predicate Usable(a: Report, b: Report) {
    a.peerRx <= b.peerRx && a.localTx <= b.localTx && MIN_WINDOW <= Since(b.stamp, a.stamp) <= STALE_AFTER
  }

  /** A sample that measures exactly the bytes between the two reports. */
  ghost predicate Measures(s: Sample, a: Report, b: Report) {
    && s.stamp == b.stamp && a.stamp < b.stamp
    && s.offered * Seconds(b.stamp - a.stamp) * 1_000_000.0 == (b.localTx - a.localTx) as real * 8.0
    && s.delivered * Seconds(b.stamp - a.stamp) * 1_000_000.0 == (b.peerRx - a.peerRx) as real * 8.0
  }

  lemma MbpsMeasures(count: nat, dt: nat)
    requires dt > 0
    ensures Mbps(count, dt) * Seconds(dt) * 1_000_000.0 == count as real * 8.0
  {
    var bits, t := count as real * 8.0, Seconds(dt);
    assert (bits / t) * t == bits;
    assert bits / t / 1_000_000.0 * t * 1_000_000.0 == bits / t * t;
  }

  class ReportWindow {
    var prev: Option<Report>
    var last: Option<Sample>
    /** The report before `prev`, when `last` is the sample between the two. */
    ghost var before: Report

    ghost predicate Valid()
      reads this
    {
      last.Some? ==> prev.Some? && Usable(before, prev.value) && Measures(last.value, before, prev.value)
    }

    constructor ()
      ensures Valid() && prev == None && last == None
    {
      prev, last, before := None, None, Report(0, 0, 0);
    }

    method Reset()
      modifies this
      ensures Valid() && prev == None && last == None
    {
      prev, last := None, None;
    }

    method Observe(r: Report) returns (s: Option<Sample>)
      requires Valid()
      modifies this
      ensures Valid() && s == last && prev.Some? && prev.value.stamp == r.stamp
      ensures old(prev).Some? && old(prev).value.stamp == r.stamp ==> s == old(last) && prev == old(prev)
      ensures old(prev).None? ==> s == None && prev == Some(r)
      ensures old(prev).Some? && old(prev).value.stamp != r.stamp ==>
                && prev == Some(r) && (s.Some? <==> Usable(old(prev).value, r))
                && (s.Some? ==> Measures(s.value, old(prev).value, r))
    {
      if prev.None? {
        prev := Some(r);
        return None;
      }
      var p := prev.value;
      if p.stamp == r.stamp {
        return last;
      }
      prev := Some(r);
      var dt := Since(r.stamp, p.stamp);
      if r.peerRx < p.peerRx || r.localTx < p.localTx || dt < MIN_WINDOW || dt > STALE_AFTER {
        last := None;
        return None;
      }
      before := p;
      MbpsMeasures(r.localTx - p.localTx, dt);
      MbpsMeasures(r.peerRx - p.peerRx, dt);
      last := Some(Sample(Mbps(r.localTx - p.localTx, dt), Mbps(r.peerRx - p.peerRx, dt), r.stamp));
      s := last;
    }
  }
}
