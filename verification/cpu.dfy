/** The CPU-utilisation delta: ten clamped per-state gaps between two
    samples of the kernel's cumulative CPU times, the guest adjustment, and
    the percentages of the adjusted total (main.go:218-296). */
module Cpu {
  import opened Common

  /** The ten scheduler states the kernel accounts CPU time to. */
  datatype State = User | Nice | System | Idle | Iowait | Irq | SoftIrq | Steal | Guest | GuestNice

  /** Seconds of CPU time per state. Used both for the cumulative counters of
      one sample and for the gaps between two samples. */
  datatype CpuTimes = CpuTimes(
    user: real, nice: real, system: real, idle: real, iowait: real,
    irq: real, softIrq: real, steal: real, guest: real, guestNice: real)

  function Field(c: CpuTimes, k: State): real
  {
    match k
    case User => c.user
    case Nice => c.nice
    case System => c.system
    case Idle => c.idle
    case Iowait => c.iowait
    case Irq => c.irq
    case SoftIrq => c.softIrq
    case Steal => c.steal
    case Guest => c.guest
    case GuestNice => c.guestNice
  }

  /** The metric name under which the share of state k is reported. */
  function Name(k: State): string
  {
    match k
    case User => "user"
    case Nice => "nice"
    case System => "system"
    case Idle => "idle"
    case Iowait => "iowait"
    case Irq => "irq"
    case SoftIrq => "softirq"
    case Steal => "steal"
    case Guest => "guest"
    case GuestNice => "guest_nice"
  }

  const AllStates: set<State> := {User, Nice, System, Idle, Iowait, Irq, SoftIrq, Steal, Guest, GuestNice}

  lemma AllStatesComplete()
    ensures forall k :: k in AllStates
  {
    forall k
      ensures k in AllStates
    {
      match k
      case User => case Nice => case System => case Idle => case Iowait =>
      case Irq => case SoftIrq => case Steal => case Guest => case GuestNice =>
    }
  }

  ghost predicate NonNegative(c: CpuTimes)
  {
    && c.user >= 0.0 && c.nice >= 0.0 && c.system >= 0.0 && c.idle >= 0.0 && c.iowait >= 0.0
    && c.irq >= 0.0 && c.softIrq >= 0.0 && c.steal >= 0.0 && c.guest >= 0.0 && c.guestNice >= 0.0
  }

  /** Sum over all ten states. */
  function Sum(c: CpuTimes): real
  {
    c.user + c.nice + c.system + c.idle + c.iowait + c.irq + c.softIrq + c.steal + c.guest + c.guestNice
  }

  /** The gap of one counter between two samples, with a counter that went
      backwards (for instance after a reboot) counting as no time at all. */
  function Gap(cur: real, prev: real): (g: real)
    ensures g >= 0.0 && g >= cur - prev
    ensures g == cur - prev || g == 0.0
  {
    if cur - prev < 0.0 then 0.0 else cur - prev
  }

  /** The ten clamped gaps: each is max(cur - prev, 0) for its state. */
  function Gaps(cur: CpuTimes, prev: CpuTimes): (g: CpuTimes)
    ensures NonNegative(g)
  {
    CpuTimes(
      Gap(cur.user, prev.user), Gap(cur.nice, prev.nice), Gap(cur.system, prev.system),
      Gap(cur.idle, prev.idle), Gap(cur.iowait, prev.iowait), Gap(cur.irq, prev.irq),
      Gap(cur.softIrq, prev.softIrq), Gap(cur.steal, prev.steal), Gap(cur.guest, prev.guest),
      Gap(cur.guestNice, prev.guestNice))
  }

  /** Every gap is max(cur - prev, 0) for its state: never negative, never
      below the raw difference, and equal to it or to zero. */
  lemma GapsAreClamped(cur: CpuTimes, prev: CpuTimes, k: State)
    ensures Field(Gaps(cur, prev), k) >= 0.0
    ensures Field(Gaps(cur, prev), k) >= Field(cur, k) - Field(prev, k)
    ensures Field(Gaps(cur, prev), k) == Field(cur, k) - Field(prev, k) || Field(Gaps(cur, prev), k) == 0.0
  {
  }

  /** The total as the source accumulates it: all ten gaps added, then the
      guest and guest_nice gaps taken out again. It is the time of the eight
      states that are not guest time, and never negative. */
  function Total(g: CpuTimes): (t: real)
    ensures t == g.user + g.nice + g.system + g.idle + g.iowait + g.irq + g.softIrq + g.steal
    ensures NonNegative(g) ==> t >= 0.0
    ensures NonNegative(g) ==> (t == 0.0 <==> (
      && g.user == 0.0 && g.nice == 0.0 && g.system == 0.0 && g.idle == 0.0
      && g.iowait == 0.0 && g.irq == 0.0 && g.softIrq == 0.0 && g.steal == 0.0))
  {
    var total := Sum(g);
    total - g.guest - g.guestNice
  }

  /** The kernel counts guest time inside user time and guest_nice time inside
      nice time; the adjustment makes the ten categories exclusive. The
      adjusted gaps add up to exactly the total. */
  function Adjust(g: CpuTimes): (a: CpuTimes)
    ensures a.user + a.guest == g.user
    ensures a.nice + a.guestNice == g.nice
    ensures a.system == g.system && a.idle == g.idle && a.iowait == g.iowait && a.irq == g.irq
    ensures a.softIrq == g.softIrq && a.steal == g.steal && a.guest == g.guest && a.guestNice == g.guestNice
    ensures Sum(a) == Total(g)
  {
    g.(user := g.user - g.guest, nice := g.nice - g.guestNice)
  }

  /** The share of one state: its adjusted gap times 100 over the total. */
  function Share(cur: CpuTimes, prev: CpuTimes, k: State): Float
  {
    var g := Gaps(cur, prev);
    Div(Field(Adjust(g), k) * 100.0, Total(g))
  }

  /** The ten CPU percentages the source emits after a usable snapshot,
      by state. */
  function Percentages(cur: CpuTimes, prev: CpuTimes): (m: map<State, Float>)
    ensures forall k :: k in m && m[k] == Share(cur, prev, k)
  {
    AllStatesComplete();
    map k | k in AllStates :: Share(cur, prev, k)
  }

  /** Sum of the ten percentages, when all are finite. */
  function ShareSum(m: map<State, Float>): real
    requires forall k :: k in m && m[k].Finite?
  {
    m[User].value + m[Nice].value + m[System].value + m[Idle].value + m[Iowait].value
    + m[Irq].value + m[SoftIrq].value + m[Steal].value + m[Guest].value + m[GuestNice].value
  }

  lemma Cancel(a: real, b: real, t: real)
    requires t != 0.0 && a * t == b * t
    ensures a == b
  {
    var i := 1.0 / t;
    assert t * i == 1.0;
    calc {
      a;
      a * (t * i);
      (a * t) * i;
      (b * t) * i;
      b * (t * i);
      b;
    }
  }

  lemma FractionsAdd(x: real, y: real, t: real)
    requires t != 0.0
    ensures x / t + y / t == (x + y) / t
  {
    assert (x / t) * t == x;
    assert (y / t) * t == y;
    assert ((x + y) / t) * t == x + y;
    assert (x / t + y / t) * t == (x / t) * t + (y / t) * t;
    Cancel(x / t + y / t, (x + y) / t, t);
  }

  lemma WholeIsHundred(t: real)
    requires t != 0.0
    ensures (t * 100.0) / t == 100.0
  {
    assert ((t * 100.0) / t) * t == 100.0 * t;
    Cancel((t * 100.0) / t, 100.0, t);
  }

  /** Whenever the total is not zero, all ten percentages are finite and they
      add up to exactly 100, because the adjusted gaps add up to the total. */
  lemma SharesSumTo100(cur: CpuTimes, prev: CpuTimes)
    requires Total(Gaps(cur, prev)) != 0.0
    ensures forall k :: Percentages(cur, prev)[k].Finite?
    ensures ShareSum(Percentages(cur, prev)) == 100.0
  {
    var g := Gaps(cur, prev);
    var a := Adjust(g);
    var t := Total(g);
    var m := Percentages(cur, prev);
    ShareValues(cur, prev);
    assert ShareSum(m) == a.user * 100.0 / t + a.nice * 100.0 / t + a.system * 100.0 / t
      + a.idle * 100.0 / t + a.iowait * 100.0 / t + a.irq * 100.0 / t + a.softIrq * 100.0 / t
      + a.steal * 100.0 / t + a.guest * 100.0 / t + a.guestNice * 100.0 / t;
    ScaledSum(a, t);
    WholeIsHundred(t);
  }

  /** With a non-zero total each percentage is the finite quotient of its
      adjusted gap times 100 by the total. */
  lemma ShareValues(cur: CpuTimes, prev: CpuTimes)
    requires Total(Gaps(cur, prev)) != 0.0
    ensures forall k :: Percentages(cur, prev)[k] == Finite(Field(Adjust(Gaps(cur, prev)), k) * 100.0 / Total(Gaps(cur, prev)))
  {
  }

  /** The ten fields scaled by 100/t add up to their sum scaled by 100/t. */
  lemma ScaledSum(a: CpuTimes, t: real)
    requires t != 0.0
    ensures a.user * 100.0 / t + a.nice * 100.0 / t + a.system * 100.0 / t
      + a.idle * 100.0 / t + a.iowait * 100.0 / t + a.irq * 100.0 / t + a.softIrq * 100.0 / t
      + a.steal * 100.0 / t + a.guest * 100.0 / t + a.guestNice * 100.0 / t
      == (Sum(a) * 100.0) / t
  {
    var s1, s2, s3, s4, s5 := a.user * 100.0, a.nice * 100.0, a.system * 100.0, a.idle * 100.0, a.iowait * 100.0;
    var s6, s7, s8, s9, s10 := a.irq * 100.0, a.softIrq * 100.0, a.steal * 100.0, a.guest * 100.0, a.guestNice * 100.0;
    FractionsAdd(s1, s2, t);
    FractionsAdd(s1 + s2, s3, t);
    FractionsAdd(s1 + s2 + s3, s4, t);
    FractionsAdd(s1 + s2 + s3 + s4, s5, t);
    FractionsAdd(s1 + s2 + s3 + s4 + s5, s6, t);
    FractionsAdd(s1 + s2 + s3 + s4 + s5 + s6, s7, t);
    FractionsAdd(s1 + s2 + s3 + s4 + s5 + s6 + s7, s8, t);
    FractionsAdd(s1 + s2 + s3 + s4 + s5 + s6 + s7 + s8, s9, t);
    FractionsAdd(s1 + s2 + s3 + s4 + s5 + s6 + s7 + s8 + s9, s10, t);
    assert s1 + s2 + s3 + s4 + s5 + s6 + s7 + s8 + s9 + s10 == Sum(a) * 100.0;
  }

  lemma PercentOfWhole(x: real, t: real)
    requires t > 0.0 && 0.0 <= x <= t
    ensures 0.0 <= x * 100.0 / t <= 100.0
  {
    assert x * 100.0 / t <= t * 100.0 / t;
  }

  /** With a positive total and guest time not exceeding the user and nice
      time that contains it, every percentage lies between 0 and 100. */
  lemma SharesWithinRange(cur: CpuTimes, prev: CpuTimes)
    requires Total(Gaps(cur, prev)) > 0.0
    requires Gaps(cur, prev).user >= Gaps(cur, prev).guest
    requires Gaps(cur, prev).nice >= Gaps(cur, prev).guestNice
    ensures forall k :: Percentages(cur, prev)[k].Finite?
    ensures forall k :: 0.0 <= Percentages(cur, prev)[k].value <= 100.0
  {
    var g := Gaps(cur, prev);
    var a := Adjust(g);
    var t := Total(g);
    assert NonNegative(a);
    forall k
      ensures 0.0 <= Share(cur, prev, k).value <= 100.0
    {
      var x := Field(a, k);
      assert 0.0 <= x <= t;
      PercentOfWhole(x, t);
    }
  }

  /** With a zero total the six states other than user, nice, guest and
      guest_nice report NaN; guest and guest_nice report +Inf when their gap
      is positive (else NaN), and user and nice then report -Inf (else NaN). */
  lemma ZeroTotalShares(cur: CpuTimes, prev: CpuTimes)
    requires Total(Gaps(cur, prev)) == 0.0
    ensures forall k :: k != User && k != Nice && k != Guest && k != GuestNice ==> Percentages(cur, prev)[k] == NaN
    ensures Percentages(cur, prev)[Guest] == if Gaps(cur, prev).guest > 0.0 then PosInf else NaN
    ensures Percentages(cur, prev)[User] == if Gaps(cur, prev).guest > 0.0 then NegInf else NaN
    ensures Percentages(cur, prev)[GuestNice] == if Gaps(cur, prev).guestNice > 0.0 then PosInf else NaN
    ensures Percentages(cur, prev)[Nice] == if Gaps(cur, prev).guestNice > 0.0 then NegInf else NaN
  {
  }

  /** The source does not clamp again after the guest adjustment: with a
      positive total, user is reported negative exactly when the guest gap
      exceeds the user gap (for instance a user counter that went backwards
      while guest kept counting), and likewise nice against guest_nice. */
  lemma NegativeUserOrNiceShare(cur: CpuTimes, prev: CpuTimes)
    requires Total(Gaps(cur, prev)) > 0.0
    ensures Percentages(cur, prev)[User].Finite? && Percentages(cur, prev)[Nice].Finite?
    ensures Percentages(cur, prev)[User].value < 0.0 <==> Gaps(cur, prev).guest > Gaps(cur, prev).user
    ensures Percentages(cur, prev)[Nice].value < 0.0 <==> Gaps(cur, prev).guestNice > Gaps(cur, prev).nice
  {
    var g := Gaps(cur, prev);
    var t := Total(g);
    SignOfShare(g.user - g.guest, t);
    SignOfShare(g.nice - g.guestNice, t);
  }

  lemma SignOfShare(x: real, t: real)
    requires t > 0.0
    ensures x * 100.0 / t < 0.0 <==> x < 0.0
  {
    if x < 0.0 {
      assert x * 100.0 / t < 0.0 / t;
    } else {
      assert x * 100.0 / t >= 0.0 / t;
    }
  }
}
