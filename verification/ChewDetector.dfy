/** The head-relative chew detector that `airlog_chew_patch.py` adds to the ACE driver. */
module ChewDetector {
  import opened Wrappers

  const CHEW_MIN_MOVING := 3

  /** The patch's options, and the driver's own threshold for a chewing window. */
  datatype Params = Params(ratio: real, floor: real, warmup: nat, alpha: real, vmaxMin: real, varyMin: real,
                           bandLo: real, bandHi: real, maxGap: real, chewDelta: real)

  /** What the option parser admits. */
  predicate Legal(p: Params) {
    && p.ratio >= 0.0 && p.floor >= 0.0 && p.warmup >= 1 && 0.0 <= p.alpha <= 1.0 && p.vmaxMin >= 0.0
    && p.varyMin >= 0.0 && p.bandLo >= 0.0 && p.bandHi >= 0.0 && p.maxGap >= 0.0
  }

  type Key = (int, nat)
  datatype Kind = Absolute | Relative

  /** Baselines and warm-up deltas, per head and band. */
  datatype Memory = Memory(base: map<Key, real>, warm: map<Key, seq<real>>)

  datatype Detector = Detector(memory: Memory, relRun: map<int, nat>, last: map<int, real>, kind: map<int, Kind>,
                               absRun: map<int, nat>)

  const NOTHING := Memory(map[], map[])
  const EMPTY := Detector(NOTHING, map[], map[], map[], map[])

  /** One closed window of one head. */
  datatype Window = Window(head: int, delta: Option<real>, nmove: int, vmax: Option<real>, vmean: Option<real>,
                           time: Option<real>)

  datatype Event = Closed(w: Window) | Excused(head: int) | Resumed(head: int) | NewPrint

  // ---- numbers --------------------------------------------------------------------------

  function Ascend(x: real, s: seq<real>): seq<real>
    decreases s
  {
    if s == [] || x <= s[0] then [x] + s else [s[0]] + Ascend(x, s[1..])
  }

  function Sorted(s: seq<real>): (r: seq<real>)
    ensures |r| == |s|
    decreases s
  {
    if s == [] then [] else
      AscendLength(s[0], Sorted(s[1..]));
      Ascend(s[0], Sorted(s[1..]))
  }

  lemma {:induction false} AscendLength(x: real, s: seq<real>)
    ensures |Ascend(x, s)| == |s| + 1
    decreases s
  {
    if s != [] && x > s[0] {
      AscendLength(x, s[1..]);
    }
  }

  function Median(s: seq<real>): real
    requires s != []
  {
    Sorted(s)[|s| / 2]
  }

  /** The exponential average: weight `a` on the new value. */
  function Blend(a: real, base: real, x: real): real {
    (1.0 - a) * base + a * x
  }

  function Max(a: real, b: real): real {
    if a >= b then a else b
  }

  // ---- one window ----------------------------------------------------------------------------

  function Band(p: Params, vmax: real): (b: nat)
    ensures b <= 2
  {
    if p.bandLo <= 0.0 && p.bandHi <= 0.0 then 0
    else if p.bandLo > 0.0 && vmax < p.bandLo then 0
    else if p.bandHi > 0.0 && vmax < p.bandHi then 1 else 2
  }

  function KeyOf(p: Params, w: Window): Key {
    (w.head, Band(p, if w.vmax.Some? then w.vmax.value else 0.0))
  }

  /** Fast, or of varying speed. */
  predicate Counted(p: Params, w: Window) {
    && w.vmax.Some?
    && (w.vmax.value >= p.vmaxMin
        || (p.varyMin > 0.0 && w.vmean.Some? && w.vmax.value - w.vmean.value >= p.varyMin))
  }

  /** Enough movement to be scored at all. */
  predicate Scorable(w: Window) {
    w.delta.Some? && w.nmove >= CHEW_MIN_MOVING
  }

  /** Reaches the relative rule. */
  predicate Judged(p: Params, w: Window) {
    Scorable(w) && p.ratio > 0.0 && Counted(p, w)
  }

  predicate Suspicious(p: Params, d: Detector, w: Window) {
    && Judged(p, w) && KeyOf(p, w) in d.memory.base
    && w.delta.value >= p.floor && w.delta.value >= p.ratio * d.memory.base[KeyOf(p, w)]
  }

  predicate Gap(p: Params, d: Detector, w: Window) {
    w.time.Some? && w.head in d.last && w.time.value - d.last[w.head] > p.maxGap
  }

  function RunAt(run: map<int, nat>, head: int): nat {
    if head in run then run[head] else 0
  }

  function WarmAt(m: Memory, key: Key): seq<real> {
    if key in m.warm then m.warm[key] else []
  }

  /** The window teaches the baseline of its band. */
  predicate Trains(p: Params, d: Detector, w: Window): (b: bool)
    ensures b ==> w.delta.Some?
  {
    Judged(p, w) && !Suspicious(p, d, w) && w.delta.value < p.chewDelta
  }

  function Train(p: Params, m: Memory, key: Key, delta: real): Memory {
    if key in m.base then m.(base := m.base[key := Blend(p.alpha, m.base[key], delta)])
    else
      var warm := WarmAt(m, key) + [delta];
      if |warm| >= p.warmup then Memory(m.base[key := Median(warm)], m.warm - {key})
      else m.(warm := m.warm[key := warm])
  }

  /** `_ov_chew_rel`; the run length it returns is the one it leaves in `relRun`. */
  function JudgeRelative(p: Params, d: Detector, w: Window): Detector
    requires Scorable(w)
  {
    if !Judged(p, w) then d.(relRun := d.relRun - {w.head})
    else
      d.(last := Stamp(d.last, w),
         relRun := if Suspicious(p, d, w) then Extend(d.relRun, w.head, Gap(p, d, w)) else d.relRun - {w.head},
         memory := if Trains(p, d, w) then Train(p, d.memory, KeyOf(p, w), w.delta.value) else d.memory)
  }

  function Stamp(last: map<int, real>, w: Window): map<int, real> {
    if w.time.Some? then last[w.head := w.time.value] else last
  }

  /** One more suspicious window; silence before it starts the run over. */
  function Extend(run: map<int, nat>, head: int, gap: bool): map<int, nat> {
    run[head := (if gap then 0 else RunAt(run, head)) + 1]
  }

  function RelReset(d: Detector, head: int): Detector {
    d.(relRun := d.relRun - {head}, last := d.last - {head})
  }

  /** A window that says nothing ends both runs. */
  function Excuse(d: Detector, head: int): Detector {
    RelReset(d, head).(absRun := d.absRun - {head})
  }

  function CountAbsolute(p: Params, d: Detector, w: Window): Detector
    requires Scorable(w)
  {
    d.(absRun := if w.delta.value >= p.chewDelta then d.absRun[w.head := RunAt(d.absRun, w.head) + 1]
                 else d.absRun - {w.head})
  }

  /** `_ov_chew_window`. */
  function Score(p: Params, d: Detector, w: Window): Detector {
    if !Scorable(w) then Excuse(d, w.head)
    else NoteKind(JudgeRelative(p, CountAbsolute(p, d, w), w), w.head)
  }

  /** Remember which rule the run comes from. */
  function NoteKind(d: Detector, head: int): Detector {
    var absRun, relRun := RunAt(d.absRun, head), RunAt(d.relRun, head);
    if absRun == 0 && relRun == 0 then d
    else d.(kind := d.kind[head := if absRun >= relRun then Absolute else Relative])
  }

  /** The run that is reported for a head. */
  function Reported(d: Detector, head: int): nat {
    if RunAt(d.absRun, head) >= RunAt(d.relRun, head) then RunAt(d.absRun, head) else RunAt(d.relRun, head)
  }

  function Forget(m: Memory, head: int): Memory {
    Memory(map k <- m.base | k.0 != head :: m.base[k], map k <- m.warm | k.0 != head :: m.warm[k])
  }

  /** `_ov_chew_resume`. */
  function Resume(d: Detector, head: int): Detector {
    var r := RelReset(d, head).(kind := d.kind - {head});
    if head in d.kind && d.kind[head] == Relative then
      r.(memory := Forget(d.memory, head))
    else r
  }

  function Apply(p: Params, d: Detector, e: Event): Detector {
    match e
    case Closed(w) => Score(p, d, w)
    case Excused(head) => Excuse(d, head)
    case Resumed(head) => Resume(d, head)
    case NewPrint => d.(memory := NOTHING, relRun := map[], last := map[])
  }

  function After(p: Params, h: seq<Event>): Detector
    decreases h
  {
    if h == [] then EMPTY else Apply(p, After(p, h[..|h| - 1]), h[|h| - 1])
  }

  // ---- what a baseline is made of -------------------------------------------------------------

  /** The deltas that trained a baseline since it was last thrown away. */
  function Samples(p: Params, h: seq<Event>, key: Key): seq<real>
    decreases h
  {
    if h == [] then []
    else Sampled(p, After(p, h[..|h| - 1]), h[|h| - 1], key, Samples(p, h[..|h| - 1], key))
  }

  /** The median of the warm-up, then an exponential average. */
  function Learned(p: Params, s: seq<real>): real
    requires p.warmup >= 1 && |s| >= p.warmup
    decreases s
  {
    if |s| == p.warmup then Median(s)
    else Blend(p.alpha, Learned(p, s[..|s| - 1]), s[|s| - 1])
  }

  /** The detector's memory of one band, as its samples determine it. */
  predicate Remembers(p: Params, m: Memory, key: Key, s: seq<real>)
    requires p.warmup >= 1
  {
    && (key in m.base <==> |s| >= p.warmup)
    && (key in m.base ==> m.base[key] == Learned(p, s) && key !in m.warm)
    && (key !in m.base ==> WarmAt(m, key) == s)
  }

  lemma TrainRemembers(p: Params, m: Memory, key: Key, s: seq<real>, delta: real)
    requires p.warmup >= 1 && Remembers(p, m, key, s)
    ensures Remembers(p, Train(p, m, key, delta), key, s + [delta])
  {
    hide Median;
    assert (s + [delta])[..|s|] == s;
  }

  lemma OtherKeyUntrained(p: Params, m: Memory, k: Key, delta: real, key: Key, s: seq<real>)
    requires p.warmup >= 1 && Remembers(p, m, key, s) && k != key
    ensures Remembers(p, Train(p, m, k, delta), key, s)
  {
    hide Median, Learned;
  }

  lemma ScoreMemory(p: Params, d: Detector, w: Window)
    ensures Score(p, d, w).memory
         == if Trains(p, d, w) then Train(p, d.memory, KeyOf(p, w), w.delta.value) else d.memory
  {
    hide KeyOf, Gap, Counted, Train;
  }

  /** What an event does to the samples of a band. */
  function Sampled(p: Params, d: Detector, e: Event, key: Key, s: seq<real>): seq<real> {
    match e
    case Closed(w) => if KeyOf(p, w) == key && Trains(p, d, w) then s + [w.delta.value] else s
    case Excused(_) => s
    case Resumed(head) => if head == key.0 && head in d.kind && d.kind[head] == Relative then [] else s
    case NewPrint => []
  }

  lemma StepRemembers(p: Params, d: Detector, e: Event, key: Key, s: seq<real>)
    requires p.warmup >= 1 && Remembers(p, d.memory, key, s)
    ensures Remembers(p, Apply(p, d, e).memory, key, Sampled(p, d, e, key, s))
  {
    hide Median, KeyOf, Gap, Counted, Score, Trains, Train, Learned;
    match e {
      case Closed(w) =>
        ScoreMemory(p, d, w);
        if Trains(p, d, w) {
          if KeyOf(p, w) == key {
            TrainRemembers(p, d.memory, key, s, w.delta.value);
          } else {
            OtherKeyUntrained(p, d.memory, KeyOf(p, w), w.delta.value, key, s);
          }
        }
      case _ =>
    }
  }

  /**
   * At every moment a band's baseline is there exactly when `warmup` samples
   * have trained it, and is the median of those averaged with the later ones.
   */
  lemma {:induction false} BaselineIsLearned(p: Params, h: seq<Event>, key: Key)
    requires p.warmup >= 1
    ensures Remembers(p, After(p, h).memory, key, Samples(p, h, key))
    decreases h
  {
    hide Apply, Remembers, KeyOf, Trains;
    if h == [] {
      NothingRemembered(p, key);
    } else {
      BaselineIsLearned(p, h[..|h| - 1], key);
      StepRemembers(p, After(p, h[..|h| - 1]), h[|h| - 1], key, Samples(p, h[..|h| - 1], key));
    }
  }

  lemma NothingRemembered(p: Params, key: Key)
    requires p.warmup >= 1
    ensures Remembers(p, NOTHING, key, [])
  {
  }

  /** What the detector lets through as a sample: no absolute chew, nothing suspicious at the time. */
  predicate Plausible(p: Params, s: seq<real>)
    requires p.warmup >= 1
  {
    forall i | 0 <= i < |s| :: PlausibleAt(p, s[..i], s[i])
  }

  predicate PlausibleAt(p: Params, before: seq<real>, x: real)
    requires p.warmup >= 1
  {
    x < p.chewDelta && (|before| >= p.warmup ==> x < p.floor || x < p.ratio * Learned(p, before))
  }

  lemma PlausibleSnoc(p: Params, s: seq<real>, x: real)
    requires p.warmup >= 1 && Plausible(p, s) && PlausibleAt(p, s, x)
    ensures Plausible(p, s + [x])
  {
    hide PlausibleAt;
    var all := s + [x];
    forall i | 0 <= i < |all| ensures PlausibleAt(p, all[..i], all[i]) {
      if i < |s| {
        assert all[..i] == s[..i] && all[i] == s[i];
      } else {
        assert all[..i] == s && all[i] == x;
      }
    }
  }

  lemma TrainingSample(p: Params, d: Detector, w: Window, s: seq<real>)
    requires p.warmup >= 1 && Remembers(p, d.memory, KeyOf(p, w), s) && Trains(p, d, w)
    ensures PlausibleAt(p, s, w.delta.value)
  {
    hide Learned, Counted, KeyOf;
  }

  /** Suspicious windows and absolute-chew windows never train. */
  lemma {:induction false} SamplesArePlausible(p: Params, h: seq<Event>, key: Key)
    requires p.warmup >= 1
    ensures Plausible(p, Samples(p, h, key))
    decreases h
  {
    hide Apply, Remembers, KeyOf, Trains, Plausible, PlausibleAt, Learned;
    if h == [] {
      NothingPlausible(p);
    } else {
      var init, e := h[..|h| - 1], h[|h| - 1];
      NothingPlausible(p);
      SamplesArePlausible(p, init, key);
      if e.Closed? && KeyOf(p, e.w) == key && Trains(p, After(p, init), e.w) {
        BaselineIsLearned(p, init, key);
        TrainingSample(p, After(p, init), e.w, Samples(p, init, key));
        PlausibleSnoc(p, Samples(p, init, key), e.w.delta.value);
      }
    }
  }

  lemma NothingPlausible(p: Params)
    requires p.warmup >= 1
    ensures Plausible(p, [])
  {
  }

  // ---- the range and the growth of a baseline ----------------------------------------------------

  predicate Between(s: seq<real>, lo: real, hi: real) {
    forall i | 0 <= i < |s| :: lo <= s[i] <= hi
  }

  lemma {:induction false} SortedBetween(s: seq<real>, lo: real, hi: real)
    requires Between(s, lo, hi)
    ensures Between(Sorted(s), lo, hi)
    decreases s
  {
    if s != [] {
      SortedBetween(s[1..], lo, hi);
      AscendBetween(s[0], Sorted(s[1..]), lo, hi);
    }
  }

  lemma {:induction false} AscendBetween(x: real, s: seq<real>, lo: real, hi: real)
    requires Between(s, lo, hi) && lo <= x <= hi
    ensures Between(Ascend(x, s), lo, hi)
    decreases s
  {
    if s != [] && x > s[0] {
      AscendBetween(x, s[1..], lo, hi);
    }
  }

  lemma Mix(a: real, x: real, y: real, lo: real, hi: real)
    requires 0.0 <= a <= 1.0 && lo <= x <= hi && lo <= y <= hi
    ensures lo <= Blend(a, x, y) <= hi
  {
    assert (1.0 - a) * x + a * y - lo == (1.0 - a) * (x - lo) + a * (y - lo);
    assert hi - ((1.0 - a) * x + a * y) == (1.0 - a) * (hi - x) + a * (hi - y);
    Product(1.0 - a, x - lo);
    Product(a, y - lo);
    Product(1.0 - a, hi - x);
    Product(a, hi - y);
  }

  lemma Product(x: real, y: real)
    requires x >= 0.0 && y >= 0.0
    ensures x * y >= 0.0
  {
  }

  /** A baseline never leaves the range of the samples that trained it. */
  lemma {:induction false} LearnedInRange(p: Params, s: seq<real>, lo: real, hi: real)
    requires Legal(p) && |s| >= p.warmup && Between(s, lo, hi)
    ensures lo <= Learned(p, s) <= hi
    decreases s
  {
    hide Sorted;
    if |s| == p.warmup {
      SortedBetween(s, lo, hi);
    } else {
      LearnedInRange(p, s[..|s| - 1], lo, hi);
      Mix(p.alpha, Learned(p, s[..|s| - 1]), s[|s| - 1], lo, hi);
    }
  }

  function Greatest(s: seq<real>): real
    requires s != []
    decreases s
  {
    if |s| == 1 then s[0] else Max(s[0], Greatest(s[1..]))
  }

  lemma {:induction false} GreatestIs(s: seq<real>)
    requires s != []
    ensures Greatest(s) in s && forall i | 0 <= i < |s| :: s[i] <= Greatest(s)
    decreases s
  {
    if |s| > 1 {
      GreatestIs(s[1..]);
    }
  }

  function Least(s: seq<real>): real
    requires s != []
    decreases s
  {
    if |s| == 1 then s[0] else if s[0] <= Least(s[1..]) then s[0] else Least(s[1..])
  }

  lemma {:induction false} LeastIs(s: seq<real>)
    requires s != []
    ensures Least(s) in s && forall i | 0 <= i < |s| :: Least(s) <= s[i]
    decreases s
  {
    if |s| > 1 {
      LeastIs(s[1..]);
    }
  }

  /** An armed baseline lies between two of its samples and below the absolute threshold. */
  lemma BaselineInRange(p: Params, h: seq<Event>, key: Key)
    requires Legal(p) && key in After(p, h).memory.base
    ensures var b, s := After(p, h).memory.base[key], Samples(p, h, key);
            && (exists x <- s :: x <= b) && (exists x <- s :: b <= x) && b < p.chewDelta
  {
    hide After, Samples, Learned, Least, Greatest;
    BaselineIsLearned(p, h, key);
    SamplesArePlausible(p, h, key);
    var s := Samples(p, h, key);
    LeastIs(s);
    GreatestIs(s);
    LearnedInRange(p, s, Least(s), Greatest(s));
    assert Greatest(s) < p.chewDelta;
  }

  function Pow(x: real, n: nat): real
    decreases n
  {
    if n == 0 then 1.0 else Pow(x, n - 1) * x
  }

  /** What a suspicious window is measured against, in units of the ratio. */
  function Level(p: Params, base: real): real
    requires p.ratio > 0.0
  {
    Max(base, p.floor / p.ratio)
  }

  function GrowthFactor(p: Params): real {
    1.0 + p.alpha * (p.ratio - 1.0)
  }

  lemma LevelStep(p: Params, base: real, x: real)
    requires Legal(p) && p.ratio >= 1.0 && (x < p.floor || x < p.ratio * base)
    ensures Grown(p, base, Blend(p.alpha, base, x), 1)
    ensures Level(p, base) >= 0.0 && GrowthFactor(p) >= 1.0
  {
    var m, q, a, f := Level(p, base), p.ratio, p.alpha, p.floor / p.ratio;
    assert f >= 0.0 && f * q == p.floor;
    Product(m, q - 1.0);
    Product(a, q - 1.0);
    assert x <= q * m by {
      Product(q, m - base);
      Product(q, m - f);
      assert q * (m - base) == q * m - q * base && q * (m - f) == q * m - q * f;
    }
    Product(1.0 - a, m - base);
    Product(a, q * m - x);
    assert (1.0 - a) * (m - base) == (1.0 - a) * m - (1.0 - a) * base;
    assert a * (q * m - x) == a * (q * m) - a * x;
    assert m * GrowthFactor(p) == (1.0 - a) * m + a * (q * m);
    Product(m, a * (q - 1.0));
    assert Pow(GrowthFactor(p), 1) == GrowthFactor(p);
  }

  /** `n` windows raised the level by at most the n-th power of the growth factor. */
  predicate Grown(p: Params, before: real, after: real, n: nat)
    requires p.ratio > 0.0
  {
    Level(p, after) <= Level(p, before) * Pow(GrowthFactor(p), n)
  }

  lemma GrownStep(p: Params, start: real, mid: real, end: real, n: nat)
    requires p.ratio > 0.0 && GrowthFactor(p) >= 1.0 && Grown(p, start, mid, n) && Grown(p, mid, end, 1)
    ensures Grown(p, start, end, n + 1)
  {
    hide Level, GrowthFactor;
    var l, g, f, v := Level(p, start), Pow(GrowthFactor(p), n), GrowthFactor(p), Level(p, mid);
    assert Pow(f, 1) == f;
    Product(l * g - v, f);
    assert (l * g - v) * f == (l * g) * f - v * f;
    assert l * (g * f) == (l * g) * f;
  }

  lemma GrownNone(p: Params, base: real)
    requires p.ratio > 0.0
    ensures Grown(p, base, base, 0)
  {
  }

  lemma SampleStep(p: Params, s: seq<real>)
    requires Legal(p) && p.ratio >= 1.0 && |s| > p.warmup && PlausibleAt(p, s[..|s| - 1], s[|s| - 1])
    ensures Grown(p, Learned(p, s[..|s| - 1]), Learned(p, s), 1) && GrowthFactor(p) >= 1.0
  {
    hide Grown, GrowthFactor, Level, Blend, Median;
    LevelStep(p, Learned(p, s[..|s| - 1]), s[|s| - 1]);
  }

  /** From any armed moment, `n` further samples raise the level by at most the n-th power of the factor. */
  lemma {:induction false} GrowthIsBounded(p: Params, s: seq<real>, m: nat)
    requires Legal(p) && p.ratio >= 1.0 && Plausible(p, s) && p.warmup <= m <= |s|
    ensures Grown(p, Learned(p, s[..m]), Learned(p, s), |s| - m)
    decreases |s|
  {
    assert p.warmup >= 1;
    hide Grown, Plausible, PlausibleAt, Legal, Learned, GrowthFactor;
    if m == |s| {
      assert s[..m] == s;
      GrownNone(p, Learned(p, s));
    } else {
      var init := s[..|s| - 1];
      PlausiblePrefix(p, s);
      GrowthIsBounded(p, init, m);
      assert init[..m] == s[..m];
      SampleStep(p, s);
      GrownStep(p, Learned(p, s[..m]), Learned(p, init), Learned(p, s), |init| - m);
    }
  }

  lemma PlausiblePrefix(p: Params, s: seq<real>)
    requires p.warmup >= 1 && Plausible(p, s) && s != []
    ensures Plausible(p, s[..|s| - 1]) && PlausibleAt(p, s[..|s| - 1], s[|s| - 1])
  {
    hide PlausibleAt;
    var init := s[..|s| - 1];
    forall i | 0 <= i < |init| ensures PlausibleAt(p, init[..i], init[i]) {
      assert init[..i] == s[..i] && init[i] == s[i];
    }
  }

  /**
   * The growth bound over whole histories: while a baseline is not thrown away,
   * `n` trained windows raise max(base, floor/ratio) by at most the factor to the `n`.
   */
  lemma BaselineGrowth(p: Params, h: seq<Event>, more: seq<Event>, key: Key)
    requires Legal(p) && p.ratio >= 1.0 && key in After(p, h).memory.base
    requires Samples(p, h, key) <= Samples(p, h + more, key)
    ensures key in After(p, h + more).memory.base
    ensures Grown(p, After(p, h).memory.base[key], After(p, h + more).memory.base[key],
                  |Samples(p, h + more, key)| - |Samples(p, h, key)|)
  {
    hide After, Samples, Learned, Grown, Plausible;
    BaselineIsLearned(p, h, key);
    BaselineIsLearned(p, h + more, key);
    SamplesArePlausible(p, h + more, key);
    GrowthIsBounded(p, Samples(p, h + more, key), |Samples(p, h, key)|);
    assert Samples(p, h + more, key)[..|Samples(p, h, key)|] == Samples(p, h, key);
  }

  /** Samples only ever grow at the end, unless a new print or a resume after a relative pause clears them. */
  lemma {:induction false} SamplesGrow(p: Params, h: seq<Event>, more: seq<Event>, key: Key)
    requires forall i | 0 <= i < |more| :: !more[i].NewPrint? && more[i] != Resumed(key.0)
    ensures Samples(p, h, key) <= Samples(p, h + more, key)
    decreases more
  {
    hide Apply, Trains, KeyOf;
    if more == [] {
      assert h + more == h;
    } else {
      var init, all := more[..|more| - 1], h + more;
      assert all[..|all| - 1] == h + init && all[|all| - 1] == more[|more| - 1];
      SamplesGrow(p, h, init, key);
    }
  }

  // ---- the median seed ----------------------------------------------------------------------------

  function CountAtMost(s: seq<real>, x: real): nat
    decreases s
  {
    if s == [] then 0 else (if s[0] <= x then 1 else 0) + CountAtMost(s[1..], x)
  }

  function CountAtLeast(s: seq<real>, x: real): nat
    decreases s
  {
    if s == [] then 0 else (if s[0] >= x then 1 else 0) + CountAtLeast(s[1..], x)
  }

  predicate Ascends(s: seq<real>) {
    forall i, j | 0 <= i <= j < |s| :: s[i] <= s[j]
  }

  lemma {:induction false} AscendCounts(x: real, s: seq<real>, m: real)
    ensures CountAtMost(Ascend(x, s), m) == (if x <= m then 1 else 0) + CountAtMost(s, m)
    ensures CountAtLeast(Ascend(x, s), m) == (if x >= m then 1 else 0) + CountAtLeast(s, m)
    decreases s
  {
    if s != [] && x > s[0] {
      AscendCounts(x, s[1..], m);
      assert Ascend(x, s)[1..] == Ascend(x, s[1..]);
    } else {
      assert ([x] + s)[1..] == s;
    }
  }

  lemma {:induction false} AscendAscends(x: real, s: seq<real>)
    requires Ascends(s)
    ensures Ascends(Ascend(x, s))
    ensures Ascend(x, s) != [] && (Ascend(x, s)[0] == x || (s != [] && Ascend(x, s)[0] == s[0]))
    decreases s
  {
    if s != [] && x > s[0] {
      AscendAscends(x, s[1..]);
      var t := Ascend(x, s[1..]);
      assert t[0] >= s[0];
    }
  }

  lemma {:induction false} SortedCounts(s: seq<real>, m: real)
    ensures Ascends(Sorted(s))
    ensures CountAtMost(Sorted(s), m) == CountAtMost(s, m) && CountAtLeast(Sorted(s), m) == CountAtLeast(s, m)
    decreases s
  {
    hide Ascends;
    if s == [] {
      EmptyAscends();
    } else {
      SortedCounts(s[1..], m);
      AscendAscends(s[0], Sorted(s[1..]));
      AscendCounts(s[0], Sorted(s[1..]), m);
    }
  }

  lemma EmptyAscends()
    ensures Ascends([])
  {
  }

  lemma {:induction false} CountsBelow(s: seq<real>, k: nat, m: real)
    requires k <= |s| && forall i | 0 <= i < k :: s[i] <= m
    ensures CountAtMost(s, m) >= k
    decreases s
  {
    if k > 0 {
      CountsBelow(s[1..], k - 1, m);
    }
  }

  lemma {:induction false} CountsAbove(s: seq<real>, k: nat, m: real)
    requires k <= |s| && forall i | k <= i < |s| :: s[i] >= m
    ensures CountAtLeast(s, m) >= |s| - k
    decreases s
  {
    if s != [] {
      CountsAbove(s[1..], if k == 0 then 0 else k - 1, m);
    }
  }

  /** The seed is a middle value: more than half of the warm-up is at most it, at least half at least it. */
  lemma MedianIsMiddle(s: seq<real>)
    requires s != []
    ensures CountAtMost(s, Median(s)) >= |s| / 2 + 1
    ensures CountAtLeast(s, Median(s)) >= |s| - |s| / 2
  {
    hide Sorted, CountAtMost, CountAtLeast;
    SortedCounts(s, Median(s));
    CountsBelow(Sorted(s), |s| / 2 + 1, Median(s));
    CountsAbove(Sorted(s), |s| / 2, Median(s));
  }

  // ---- one head at a time -----------------------------------------------------------------------

  predicate About(e: Event, head: int) {
    match e
    case Closed(w) => w.head == head
    case Excused(h) => h == head
    case Resumed(h) => h == head
    case NewPrint => true
  }

  /** The events that concern one head. */
  function Project(h: seq<Event>, head: int): seq<Event>
    decreases h
  {
    if h == [] then []
    else if About(h[|h| - 1], head) then Project(h[..|h| - 1], head) + [h[|h| - 1]]
    else Project(h[..|h| - 1], head)
  }

  predicate SameEntry<K, V(==)>(a: map<K, V>, b: map<K, V>, k: K) {
    (k in a <==> k in b) && (k in a ==> a[k] == b[k])
  }

  ghost predicate SameBands(m: Memory, n: Memory, head: int) {
    forall band: nat :: SameEntry(m.base, n.base, (head, band)) && SameEntry(m.warm, n.warm, (head, band))
  }

  predicate SameCounters(a: Detector, b: Detector, head: int) {
    && SameEntry(a.relRun, b.relRun, head) && SameEntry(a.last, b.last, head)
    && SameEntry(a.kind, b.kind, head) && SameEntry(a.absRun, b.absRun, head)
  }

  /** Two detectors that treat a head alike. */
  ghost predicate Agree(a: Detector, b: Detector, head: int) {
    SameBands(a.memory, b.memory, head) && SameCounters(a, b, head)
  }

  lemma TrainSame(p: Params, m: Memory, n: Memory, key: Key, delta: real)
    requires SameBands(m, n, key.0)
    ensures SameBands(Train(p, m, key, delta), Train(p, n, key, delta), key.0)
  {
    hide Median, Blend;
    assert SameEntry(m.base, n.base, (key.0, key.1)) && SameEntry(m.warm, n.warm, (key.0, key.1));
    assert key == (key.0, key.1);
    var x, y := Train(p, m, key, delta), Train(p, n, key, delta);
    forall band: nat
      ensures SameEntry(x.base, y.base, (key.0, band)) && SameEntry(x.warm, y.warm, (key.0, band))
    {
      assert SameEntry(m.base, n.base, (key.0, band)) && SameEntry(m.warm, n.warm, (key.0, band));
    }
  }

  lemma TrainOther(p: Params, m: Memory, key: Key, delta: real, head: int)
    requires key.0 != head
    ensures SameBands(Train(p, m, key, delta), m, head)
  {
    hide Median, Blend;
  }

  lemma SameVerdict(p: Params, a: Detector, b: Detector, w: Window)
    requires Agree(a, b, w.head)
    ensures Suspicious(p, a, w) == Suspicious(p, b, w) && Trains(p, a, w) == Trains(p, b, w)
    ensures Gap(p, a, w) == Gap(p, b, w)
  {
    hide Counted, Band;
    assert SameEntry(a.memory.base, b.memory.base, (w.head, KeyOf(p, w).1));
  }

  lemma ScoreSameBands(p: Params, a: Detector, b: Detector, w: Window)
    requires Agree(a, b, w.head)
    ensures SameBands(Score(p, a, w).memory, Score(p, b, w).memory, w.head)
  {
    hide Suspicious, Gap, Train, SameBands, SameCounters, Score, Trains, KeyOf;
    SameVerdict(p, a, b, w);
    ScoreMemory(p, a, w);
    ScoreMemory(p, b, w);
    KeyIsOfHead(p, w);
    if Trains(p, a, w) {
      TrainSame(p, a.memory, b.memory, KeyOf(p, w), w.delta.value);
    }
  }

  lemma KeyIsOfHead(p: Params, w: Window)
    ensures KeyOf(p, w).0 == w.head
  {
  }

  lemma AbsoluteSame(p: Params, a: Detector, b: Detector, w: Window, head: int)
    requires Scorable(w)
    ensures w.head == head && SameCounters(a, b, head) ==>
              SameCounters(CountAbsolute(p, a, w), CountAbsolute(p, b, w), head)
    ensures w.head != head ==> SameCounters(CountAbsolute(p, a, w), a, head)
  {
  }

  lemma ExtendSame(a: map<int, nat>, b: map<int, nat>, head: int, gap: bool)
    requires SameEntry(a, b, head)
    ensures SameEntry(Extend(a, head, gap), Extend(b, head, gap), head)
    ensures SameEntry(a - {head}, b - {head}, head)
  {
  }

  lemma StampSame(a: map<int, real>, b: map<int, real>, w: Window)
    requires SameEntry(a, b, w.head)
    ensures SameEntry(Stamp(a, w), Stamp(b, w), w.head)
  {
  }

  lemma JudgeSame(p: Params, a: Detector, b: Detector, w: Window)
    requires Scorable(w) && SameCounters(a, b, w.head)
    requires Suspicious(p, a, w) == Suspicious(p, b, w) && Gap(p, a, w) == Gap(p, b, w)
    ensures SameCounters(JudgeRelative(p, a, w), JudgeRelative(p, b, w), w.head)
  {
    hide Suspicious, Gap, Trains, Train, KeyOf, Judged, Extend, Stamp, SameEntry;
    ExtendSame(a.relRun, b.relRun, w.head, Gap(p, a, w));
    StampSame(a.last, b.last, w);
  }

  lemma JudgeOther(p: Params, d: Detector, w: Window, head: int)
    requires Scorable(w) && w.head != head
    ensures SameCounters(JudgeRelative(p, d, w), d, head)
  {
    hide Suspicious, Gap, Trains, Train, KeyOf, Counted;
  }

  lemma KindSame(a: Detector, b: Detector, h: int, head: int)
    ensures h == head && SameCounters(a, b, head) ==> SameCounters(NoteKind(a, h), NoteKind(b, h), head)
    ensures h != head ==> SameCounters(NoteKind(a, h), a, head)
  {
  }

  lemma ResetSame(a: Detector, b: Detector, h: int, head: int)
    ensures h == head && SameCounters(a, b, head) ==> SameCounters(Excuse(a, h), Excuse(b, h), head)
    ensures h != head ==> SameCounters(Excuse(a, h), a, head)
  {
  }

  lemma ResumeSame(a: Detector, b: Detector, h: int, head: int)
    ensures h == head && SameCounters(a, b, head) ==> SameCounters(Resume(a, h), Resume(b, h), head)
    ensures h != head ==> SameCounters(Resume(a, h), a, head)
  {
    hide Forget;
  }

  lemma NewPrintSame(p: Params, a: Detector, b: Detector, head: int)
    requires SameCounters(a, b, head)
    ensures SameCounters(Apply(p, a, NewPrint), Apply(p, b, NewPrint), head)
  {
  }

  lemma CountersTransitive(a: Detector, b: Detector, c: Detector, head: int)
    requires SameCounters(a, b, head) && SameCounters(b, c, head)
    ensures SameCounters(a, c, head)
  {
  }

  lemma ScoreSameCounters(p: Params, a: Detector, b: Detector, w: Window)
    requires Agree(a, b, w.head)
    ensures SameCounters(Score(p, a, w), Score(p, b, w), w.head)
  {
    hide SameBands, SameCounters, Suspicious, Gap, CountAbsolute, JudgeRelative, NoteKind, Excuse;
    if Scorable(w) {
      var x, y := CountAbsolute(p, a, w), CountAbsolute(p, b, w);
      SameVerdict(p, a, b, w);
      AbsoluteSame(p, a, b, w, w.head);
      CountKeepsVerdict(p, a, w);
      CountKeepsVerdict(p, b, w);
      JudgeSame(p, x, y, w);
      KindSame(JudgeRelative(p, x, w), JudgeRelative(p, y, w), w.head, w.head);
    } else {
      ResetSame(a, b, w.head, w.head);
    }
  }

  lemma CountKeepsVerdict(p: Params, d: Detector, w: Window)
    requires Scorable(w)
    ensures var c := CountAbsolute(p, d, w);
            && Suspicious(p, c, w) == Suspicious(p, d, w) && Gap(p, c, w) == Gap(p, d, w) && c.memory == d.memory
  {
    hide KeyOf, Counted;
  }

  lemma ScoreOther(p: Params, d: Detector, w: Window, head: int)
    requires w.head != head
    ensures Agree(Score(p, d, w), d, head)
  {
    hide Trains, Train, KeyOf, SameBands, SameCounters, CountAbsolute, JudgeRelative, NoteKind, Excuse;
    KeyIsOfHead(p, w);
    ScoreMemory(p, d, w);
    BandsReflexive(d.memory, head);
    if Trains(p, d, w) {
      TrainOther(p, d.memory, KeyOf(p, w), w.delta.value, head);
    }
    if Scorable(w) {
      var c := CountAbsolute(p, d, w);
      var r := JudgeRelative(p, c, w);
      AbsoluteSame(p, d, d, w, head);
      JudgeOther(p, c, w, head);
      KindSame(r, r, w.head, head);
      CountersTransitive(r, c, d, head);
      CountersTransitive(NoteKind(r, w.head), r, d, head);
    } else {
      ResetSame(d, d, w.head, head);
    }
  }

  lemma BandsReflexive(m: Memory, head: int)
    ensures SameBands(m, m, head)
  {
  }

  lemma ForgetBands(m: Memory, n: Memory, gone: int, head: int)
    requires SameBands(m, n, head)
    ensures SameBands(Forget(m, gone), Forget(n, gone), head)
    ensures gone != head ==> SameBands(Forget(m, gone), m, head)
  {
    forall band: nat
      ensures SameEntry(Forget(m, gone).base, Forget(n, gone).base, (head, band))
           && SameEntry(Forget(m, gone).warm, Forget(n, gone).warm, (head, band))
    {
      assert SameEntry(m.base, n.base, (head, band)) && SameEntry(m.warm, n.warm, (head, band));
    }
  }

  lemma StepAgrees(p: Params, a: Detector, b: Detector, e: Event, head: int)
    requires Agree(a, b, head)
    ensures About(e, head) ==> Agree(Apply(p, a, e), Apply(p, b, e), head)
    ensures !About(e, head) ==> Agree(Apply(p, a, e), b, head)
  {
    hide SameBands, SameCounters, Score, Forget, Excuse, Resume;
    match e {
      case Closed(w) =>
        if w.head == head {
          ScoreSameBands(p, a, b, w);
          ScoreSameCounters(p, a, b, w);
        } else {
          ScoreOther(p, a, w, head);
          AgreeTransitive(Score(p, a, w), a, b, head);
        }
      case Resumed(h) =>
        ResumeAgrees(a, b, h, head);
      case Excused(h) =>
        ResetSame(a, b, h, head);
        ExcuseMemory(a, h);
        ExcuseMemory(b, h);
        if h != head {
          CountersTransitive(Excuse(a, h), a, b, head);
        }
      case NewPrint =>
        NewPrintSame(p, a, b, head);
        BandsReflexive(NOTHING, head);
    }
  }

  lemma ExcuseMemory(d: Detector, h: int)
    ensures Excuse(d, h).memory == d.memory
  {
  }

  lemma ResumeMemory(d: Detector, h: int)
    ensures Resume(d, h).memory == if h in d.kind && d.kind[h] == Relative then Forget(d.memory, h) else d.memory
  {
  }

  lemma ResumeAgrees(a: Detector, b: Detector, h: int, head: int)
    requires Agree(a, b, head)
    ensures h == head ==> Agree(Resume(a, h), Resume(b, h), head)
    ensures h != head ==> Agree(Resume(a, h), b, head)
  {
    assert SameEntry(a.kind, b.kind, head);
    hide SameBands, SameCounters, Forget, Resume;
    ResumeSame(a, b, h, head);
    ResumeMemory(a, h);
    ResumeMemory(b, h);
    ForgetBands(a.memory, b.memory, h, head);
    if h != head {
      BandsTransitive(Forget(a.memory, h), a.memory, b.memory, head);
      CountersTransitive(Resume(a, h), a, b, head);
    }
  }

  lemma BandsTransitive(m: Memory, n: Memory, o: Memory, head: int)
    requires SameBands(m, n, head) && SameBands(n, o, head)
    ensures SameBands(m, o, head)
  {
    forall band: nat ensures SameEntry(m.base, o.base, (head, band)) && SameEntry(m.warm, o.warm, (head, band)) {
      assert SameEntry(m.base, n.base, (head, band)) && SameEntry(m.warm, n.warm, (head, band));
      assert SameEntry(n.base, o.base, (head, band)) && SameEntry(n.warm, o.warm, (head, band));
    }
  }

  lemma AgreeTransitive(a: Detector, b: Detector, c: Detector, head: int)
    requires Agree(a, b, head) && Agree(b, c, head)
    ensures Agree(a, c, head)
  {
    hide SameBands;
    BandsTransitive(a.memory, b.memory, c.memory, head);
  }

  /** What the detector holds of a head is what that head's own events alone would leave. */
  lemma {:induction false} HeadsDoNotInterfere(p: Params, h: seq<Event>, head: int)
    ensures Agree(After(p, h), After(p, Project(h, head)), head)
    decreases h
  {
    hide Apply, Agree, About;
    if h == [] {
      EmptyAgrees(head);
    } else {
      var init, e := h[..|h| - 1], h[|h| - 1];
      HeadsDoNotInterfere(p, init, head);
      StepAgrees(p, After(p, init), After(p, Project(init, head)), e, head);
      var q := Project(init, head);
      assert (q + [e])[..|q + [e]| - 1] == q;
    }
  }

  lemma EmptyAgrees(head: int)
    ensures Agree(EMPTY, EMPTY, head)
  {
  }

  // ---- the run counter ------------------------------------------------------------------------------

  predicate OnlyAbout(h: seq<Event>, head: int) {
    forall i | 0 <= i < |h| :: About(h[i], head)
  }

  /** Event `i` is a window the relative rule finds suspicious. */
  predicate SuspiciousAt(p: Params, h: seq<Event>, i: nat)
    requires i < |h|
  {
    h[i].Closed? && Suspicious(p, After(p, h[..i]), h[i].w)
  }

  /** Too much silence before event `i`. */
  predicate GapAt(p: Params, h: seq<Event>, i: nat)
    requires i < |h|
  {
    h[i].Closed? && Gap(p, After(p, h[..i]), h[i].w)
  }

  /** The last `r` events are suspicious windows without a gap between them, and no longer block is. */
  predicate TrailingRun(p: Params, h: seq<Event>, r: nat) {
    && r <= |h|
    && (forall i | |h| - r <= i < |h| :: SuspiciousAt(p, h, i))
    && (forall i | |h| - r < i < |h| :: !GapAt(p, h, i))
    && (r == |h| || !SuspiciousAt(p, h, |h| - r - 1) || (r > 0 && GapAt(p, h, |h| - r)))
  }

  lemma RunAfter(p: Params, d: Detector, e: Event, head: int)
    requires About(e, head)
    ensures RunAt(Apply(p, d, e).relRun, head)
         == if e.Closed? && Suspicious(p, d, e.w) then (if Gap(p, d, e.w) then 0 else RunAt(d.relRun, head)) + 1 else 0
  {
    hide Train, KeyOf, Counted;
  }

  /** A head's run counter is the length of its trailing block of suspicious windows. */
  lemma {:induction false} RunIsTrailing(p: Params, h: seq<Event>, head: int)
    requires OnlyAbout(h, head)
    ensures TrailingRun(p, h, RunAt(After(p, h).relRun, head))
    decreases h
  {
    hide Apply, About, TrailingRun;
    if h == [] {
      NoRun(p);
    } else {
      var init, e := h[..|h| - 1], h[|h| - 1];
      RunIsTrailing(p, init, head);
      RunAfter(p, After(p, init), e, head);
      RunGrows(p, init, e, RunAt(After(p, init).relRun, head));
      assert init + [e] == h;
    }
  }

  lemma NoRun(p: Params)
    ensures TrailingRun(p, [], 0)
  {
  }

  lemma PrefixAt(p: Params, init: seq<Event>, e: Event, i: nat)
    requires i < |init|
    ensures SuspiciousAt(p, init + [e], i) == SuspiciousAt(p, init, i)
    ensures GapAt(p, init + [e], i) == GapAt(p, init, i)
  {
    hide Suspicious, Gap, After;
    assert (init + [e])[..i] == init[..i];
  }

  lemma LastAt(p: Params, init: seq<Event>, e: Event)
    ensures var h := init + [e];
            && SuspiciousAt(p, h, |init|) == (e.Closed? && Suspicious(p, After(p, init), e.w))
            && GapAt(p, h, |init|) == (e.Closed? && Gap(p, After(p, init), e.w))
  {
    hide Suspicious, Gap, After;
    assert (init + [e])[..|init|] == init;
  }

  lemma RunGrows(p: Params, init: seq<Event>, e: Event, r: nat)
    requires TrailingRun(p, init, r)
    ensures var h, d := init + [e], After(p, init);
            TrailingRun(p, h, if e.Closed? && Suspicious(p, d, e.w) then (if Gap(p, d, e.w) then 0 else r) + 1 else 0)
  {
    hide Suspicious, Gap, After, SuspiciousAt, GapAt;
    LastAt(p, init, e);
    forall i: nat | i < |init|
      ensures SuspiciousAt(p, init + [e], i) == SuspiciousAt(p, init, i)
      ensures GapAt(p, init + [e], i) == GapAt(p, init, i)
    {
      PrefixAt(p, init, e, i);
    }
  }

  lemma {:induction false} ProjectIsAbout(h: seq<Event>, head: int)
    ensures OnlyAbout(Project(h, head), head)
    decreases h
  {
    if h != [] {
      ProjectIsAbout(h[..|h| - 1], head);
    }
  }

  /** In any history, whatever the other heads do in between. */
  lemma RunOfHead(p: Params, h: seq<Event>, head: int)
    ensures TrailingRun(p, Project(h, head), RunAt(After(p, h).relRun, head))
  {
    hide After, TrailingRun, Project;
    ProjectIsAbout(h, head);
    RunIsTrailing(p, Project(h, head), head);
    HeadsDoNotInterfere(p, h, head);
  }

  // ---- the absolute run -------------------------------------------------------------------------------

  /** The events that touch a head's absolute run: its windows, and being excused. Neither a
      resume nor a new print does. */
  predicate Touches(e: Event, head: int) {
    (e.Closed? && e.w.head == head) || e == Excused(head)
  }

  function Touching(h: seq<Event>, head: int): seq<Event>
    decreases h
  {
    if h == [] then []
    else
      var init, e := h[..|h| - 1], h[|h| - 1];
      if Touches(e, head) then Touching(init, head) + [e] else Touching(init, head)
  }

  /** A window with enough movement and a delta at or above the driver's threshold. */
  predicate Chews(p: Params, e: Event) {
    e.Closed? && e.w.delta.Some? && e.w.nmove >= 3 && e.w.delta.value >= p.chewDelta
  }

  /** The last `r` events are chewing windows, and no longer block is. */
  predicate TrailingChew(p: Params, h: seq<Event>, r: nat) {
    && r <= |h|
    && (forall i | |h| - r <= i < |h| :: Chews(p, h[i]))
    && (r < |h| ==> !Chews(p, h[|h| - r - 1]))
  }

  lemma AbsoluteAfter(p: Params, d: Detector, e: Event, head: int)
    ensures RunAt(Apply(p, d, e).absRun, head)
         == if !Touches(e, head) then RunAt(d.absRun, head)
            else if Chews(p, e) then RunAt(d.absRun, head) + 1 else 0
  {
    hide Train, KeyOf, Counted, Suspicious, Gap, Trains;
  }

  /** In every history the absolute run is the trailing block of chewing windows of the head. */
  lemma {:induction false} AbsoluteRunIsTrailing(p: Params, h: seq<Event>, head: int)
    ensures TrailingChew(p, Touching(h, head), RunAt(After(p, h).absRun, head))
    decreases h
  {
    hide Apply, Chews, Touches;
    if h != [] {
      var init, e := h[..|h| - 1], h[|h| - 1];
      AbsoluteRunIsTrailing(p, init, head);
      AbsoluteAfter(p, After(p, init), e, head);
    }
  }

  /** The run reported for a head is the longer of its two trailing blocks, and is put down to the
      relative rule exactly when that block is the longer one. */
  lemma ReportedRun(p: Params, h: seq<Event>, w: Window) returns (absolute: nat, relative: nat)
    ensures var all, d := h + [Closed(w)], After(p, h + [Closed(w)]);
            && TrailingChew(p, Touching(all, w.head), absolute)
            && TrailingRun(p, Project(all, w.head), relative)
            && Reported(d, w.head) == (if absolute >= relative then absolute else relative)
            && (Reported(d, w.head) > 0 ==>
                  w.head in d.kind && (d.kind[w.head] == Relative <==> relative > absolute))
  {
    hide After, TrailingRun, Project, Touching, TrailingChew;
    var all := h + [Closed(w)];
    var d := After(p, all);
    absolute, relative := RunAt(d.absRun, w.head), RunAt(d.relRun, w.head);
    AbsoluteRunIsTrailing(p, all, w.head);
    RunOfHead(p, all, w.head);
    AfterOneMore(p, h, Closed(w));
    KindOfScore(p, After(p, h), w);
  }

  lemma AfterOneMore(p: Params, h: seq<Event>, e: Event)
    ensures After(p, h + [e]) == Apply(p, After(p, h), e)
  {
    assert (h + [e])[..|h|] == h;
  }

  lemma KindOfScore(p: Params, d: Detector, w: Window)
    ensures var s := Score(p, d, w);
            Reported(s, w.head) > 0 ==>
              && w.head in s.kind
              && (s.kind[w.head] == Relative <==> RunAt(s.relRun, w.head) > RunAt(s.absRun, w.head))
  {
    hide JudgeRelative, CountAbsolute;
  }

  // ---- the rule in plain numbers -----------------------------------------------------------------------

  /** Fast, or of varying speed, with the rule switched on and enough movement. */
  predicate Eligible(p: Params, w: Window) {
    && w.delta.Some? && w.nmove >= 3 && p.ratio > 0.0 && w.vmax.Some?
    && (w.vmax.value >= p.vmaxMin
        || (p.varyMin > 0.0 && w.vmean.Some? && w.vmax.value - w.vmean.value >= p.varyMin))
  }

  /**
   * In every history a window is suspicious exactly when it is eligible, its
   * band has its warm-up behind it, and its delta is at or above the floor and
   * the ratio times what the samples of the band have taught.
   */
  lemma SuspiciousIff(p: Params, h: seq<Event>, i: nat)
    requires p.warmup >= 1 && i < |h| && h[i].Closed?
    ensures var w := h[i].w;
            var s := Samples(p, h[..i], KeyOf(p, w));
            SuspiciousAt(p, h, i) == (Eligible(p, w) && |s| >= p.warmup && w.delta.value >= p.floor
                                      && w.delta.value >= p.ratio * Learned(p, s))
  {
    hide After, Samples, Learned, KeyOf;
    BaselineIsLearned(p, h[..i], KeyOf(p, h[i].w));
  }

  /** A window is a sample of its band exactly when it is eligible, not suspicious, and no chewing one;
      it is none of any other band. */
  lemma SampleIff(p: Params, h: seq<Event>, w: Window, key: Key)
    ensures var before, after := Samples(p, h, key), Samples(p, h + [Closed(w)], key);
            var taken := Eligible(p, w) && !SuspiciousAt(p, h + [Closed(w)], |h|) && w.delta.value < p.chewDelta;
            after == if taken && KeyOf(p, w) == key then before + [w.delta.value] else before
  {
    hide After, KeyOf;
    assert (h + [Closed(w)])[..|h|] == h;
  }

  /** The bands in plain numbers: below `bandLo`, from there to below `bandHi`, and from `bandHi` on. */
  lemma BandIs(p: Params, vmax: real)
    ensures p.bandLo <= 0.0 && p.bandHi <= 0.0 ==> Band(p, vmax) == 0
    ensures 0.0 < p.bandLo <= p.bandHi ==>
              && (Band(p, vmax) == 0 <==> vmax < p.bandLo) && (Band(p, vmax) == 2 <==> vmax >= p.bandHi)
    ensures p.bandLo <= 0.0 < p.bandHi ==> Band(p, vmax) == if vmax < p.bandHi then 1 else 2
    ensures p.bandHi <= 0.0 < p.bandLo ==> Band(p, vmax) == if vmax < p.bandLo then 0 else 2
    ensures forall w: Window | w.vmax == Some(vmax) :: KeyOf(p, w) == (w.head, Band(p, vmax))
  {
  }

  /** A sample moves an armed baseline towards itself by `alpha` of the distance. */
  lemma SampleMovesBaseline(p: Params, s: seq<real>, x: real)
    requires p.warmup >= 1 && |s| >= p.warmup
    ensures Learned(p, s + [x]) == Learned(p, s) + p.alpha * (x - Learned(p, s))
  {
    hide Median, Blend;
    assert (s + [x])[..|s|] == s;
    BlendMoves(p.alpha, Learned(p, s), x);
  }

  lemma BlendMoves(a: real, base: real, x: real)
    ensures Blend(a, base, x) == base + a * (x - base)
  {
  }

  /** What a resume and a new print throw away, and what they keep. */
  lemma WhatIsForgotten(p: Params, h: seq<Event>, head: int, key: Key)
    ensures var d, r := After(p, h), After(p, h + [Resumed(head)]);
            var forgets := head in d.kind && d.kind[head] == Relative;
            && Samples(p, h + [Resumed(head)], key) == (if forgets && key.0 == head then [] else Samples(p, h, key))
            && head !in r.relRun && head !in r.last && head !in r.kind && r.absRun == d.absRun
    ensures var d, r := After(p, h), After(p, h + [NewPrint]);
            && Samples(p, h + [NewPrint], key) == [] && r.memory == NOTHING && r.relRun == map[] && r.last == map[]
            && r.absRun == d.absRun && r.kind == d.kind
  {
    hide After, Samples, Forget;
    AfterOneMore(p, h, Resumed(head));
    AfterOneMore(p, h, NewPrint);
    SamplesOneMore(p, h, Resumed(head), key);
    SamplesOneMore(p, h, NewPrint, key);
  }

  lemma SamplesOneMore(p: Params, h: seq<Event>, e: Event, key: Key)
    ensures Samples(p, h + [e], key) == Sampled(p, After(p, h), e, key, Samples(p, h, key))
  {
    hide Sampled;
    assert (h + [e])[..|h|] == h;
  }

  /** Event `i` is an eligible window of the head with a time. */
  predicate TimedAt(p: Params, h: seq<Event>, head: int, i: nat)
    requires i < |h|
  {
    h[i].Closed? && h[i].w.head == head && Eligible(p, h[i].w) && h[i].w.time.Some?
  }

  /** Event `i` makes the detector forget when it last saw the head. */
  predicate BreaksAt(h: seq<Event>, head: int, i: nat)
    requires i < |h|
  {
    match h[i]
    case Closed(w) => w.head == head && (w.delta.None? || w.nmove < 3)
    case Excused(x) => x == head
    case Resumed(x) => x == head
    case NewPrint => true
  }

  /** Where a head was last seen: its latest timed window, unless something broke off since. */
  ghost predicate LastSeen(p: Params, h: seq<Event>, head: int, at: Option<real>) {
    if at.Some? then
      exists i: nat | i < |h| ::
        && TimedAt(p, h, head, i) && h[i].w.time == at
        && forall j | i < j < |h| :: !TimedAt(p, h, head, j) && !BreaksAt(h, head, j)
    else
      forall i: nat | i < |h| && TimedAt(p, h, head, i) :: exists j :: i < j < |h| && BreaksAt(h, head, j)
  }

  function LastOf(d: Detector, head: int): Option<real> {
    if head in d.last then Some(d.last[head]) else None
  }

  lemma LastAfter(p: Params, d: Detector, e: Event, head: int)
    ensures LastOf(Apply(p, d, e), head)
         == if TimedAt(p, [e], head, 0) then e.w.time
            else if BreaksAt([e], head, 0) then None else LastOf(d, head)
  {
    hide Train, KeyOf, Suspicious, Gap, Trains;
  }

  lemma SeenOneMore(p: Params, h: seq<Event>, e: Event, head: int, at: Option<real>)
    requires LastSeen(p, h, head, at)
    ensures LastSeen(p, h + [e], head, if TimedAt(p, [e], head, 0) then e.w.time
                                       else if BreaksAt([e], head, 0) then None else at)
  {
    var all := h + [e];
    assert forall i: nat | i < |h| ::
        TimedAt(p, all, head, i) == TimedAt(p, h, head, i) && BreaksAt(all, head, i) == BreaksAt(h, head, i);
    assert TimedAt(p, all, head, |h|) == TimedAt(p, [e], head, 0) && BreaksAt(all, head, |h|) == BreaksAt([e], head, 0);
    hide TimedAt, BreaksAt;
    if !TimedAt(p, [e], head, 0) && !BreaksAt([e], head, 0) && at.None? {
      forall i: nat | i < |all| && TimedAt(p, all, head, i)
        ensures exists j :: i < j < |all| && BreaksAt(all, head, j)
      {
        assert TimedAt(p, h, head, i);
        var j :| i < j < |h| && BreaksAt(h, head, j);
        assert BreaksAt(all, head, j);
      }
    }
  }

  /** The silence before a window is counted from the head's last timed window, in every history. */
  lemma {:induction false} GapIsSilence(p: Params, h: seq<Event>, head: int)
    ensures LastSeen(p, h, head, LastOf(After(p, h), head))
    ensures forall w: Window | w.head == head ::
              Gap(p, After(p, h), w) <==> var at := LastOf(After(p, h), head);
                                          at.Some? && w.time.Some? && w.time.value - at.value > p.maxGap
    decreases h
  {
    hide Apply, TimedAt, BreaksAt;
    if h != [] {
      var init, e := h[..|h| - 1], h[|h| - 1];
      GapIsSilence(p, init, head);
      LastAfter(p, After(p, init), e, head);
      SeenOneMore(p, init, e, head, LastOf(After(p, init), head));
      assert init + [e] == h;
    }
  }

  // ---- the object --------------------------------------------------------------------------------------

  class Airlog {
    const p: Params
    var base: map<Key, real>
    var warm: map<Key, seq<real>>
    var relRun: map<int, nat>
    var last: map<int, real>
    var kind: map<int, Kind>
    var absRun: map<int, nat>

    function Value(): Detector
      reads this
    {
      Detector(Memory(base, warm), relRun, last, kind, absRun)
    }

    constructor (p: Params)
      ensures this.p == p && Value() == EMPTY
    {
      this.p := p;
      base, warm, relRun, last, kind, absRun := map[], map[], map[], map[], map[], map[];
    }

    method ResetRelative(head: int)
      modifies this`relRun, this`last
      ensures Value() == RelReset(old(Value()), head)
    {
      relRun := relRun - {head};
      last := last - {head};
    }

    /** `_ov_chew_resume`. */
    method ResumeFromPause(head: int)
      modifies this
      ensures Value() == Resume(old(Value()), head)
    {
      ResetRelative(head);
      var relative := head in kind && kind[head] == Relative;
      kind := kind - {head};
      if relative {
        base := map k <- base | k.0 != head :: base[k];
        warm := map k <- warm | k.0 != head :: warm[k];
      }
    }

    /** What the patch adds to the start of a print. */
    method StartPrint()
      modifies this
      ensures Value() == Apply(p, old(Value()), NewPrint)
    {
      base, warm, relRun, last := map[], map[], map[], map[];
    }

    method Learn(key: Key, delta: real)
      modifies this`base, this`warm
      ensures Value() == old(Value()).(memory := Train(p, old(Value()).memory, key, delta))
    {
      hide Median, Blend;
      if key !in base {
        var deltas := (if key in warm then warm[key] else []) + [delta];
        if |deltas| >= p.warmup {
          base := base[key := Median(deltas)];
          warm := warm - {key};
        } else {
          warm := warm[key := deltas];
        }
      } else {
        base := base[key := Blend(p.alpha, base[key], delta)];
      }
    }

    /** `_ov_chew_rel`. */
    method Judge(w: Window) returns (run: nat, baseline: Option<real>)
      requires Scorable(w)
      modifies this`base, this`warm, this`relRun, this`last
      ensures Value() == JudgeRelative(p, old(Value()), w)
      ensures run == RunAt(relRun, w.head)
      ensures baseline == if KeyOf(p, w) in base then Some(base[KeyOf(p, w)]) else None
    {
      hide Train, Counted, Band;
      var key, delta := KeyOf(p, w), w.delta.value;
      var armed := key in base;
      if p.ratio <= 0.0 || !Counted(p, w) {
        relRun := relRun - {w.head};
        return 0, if armed then Some(base[key]) else None;
      }
      var before := last;
      if w.time.Some? {
        last := last[w.head := w.time.value];
        if w.head in before && w.time.value - before[w.head] > p.maxGap {
          relRun := relRun - {w.head};
        }
      }
      if armed && delta >= p.floor && delta >= p.ratio * base[key] {
        run := RunAt(relRun, w.head) + 1;
        relRun := relRun[w.head := run];
        return run, Some(base[key]);
      }
      relRun := relRun - {w.head};
      if delta < p.chewDelta {
        Learn(key, delta);
      }
      run := 0;
      baseline := if key in base then Some(base[key]) else None;
    }

    /** `_ov_chew_window`: score one closed window. */
    method CloseWindow(w: Window) returns (run: nat)
      modifies this
      ensures Value() == Score(p, old(Value()), w)
      ensures run == if Scorable(w) then Reported(Value(), w.head) else 0
    {
      hide JudgeRelative, KeyOf;
      if w.delta.None? || w.nmove < CHEW_MIN_MOVING {
        absRun := absRun - {w.head};
        ResetRelative(w.head);
        return 0;
      }
      var count := 0;
      if w.delta.value >= p.chewDelta {
        count := RunAt(absRun, w.head) + 1;
        absRun := absRun[w.head := count];
      } else {
        absRun := absRun - {w.head};
      }
      assert Value() == CountAbsolute(p, old(Value()), w);
      var relative, baseline := Judge(w);
      run := if count >= relative then count else relative;
      if run > 0 {
        kind := kind[w.head := if count >= relative then Absolute else Relative];
      }
      JudgeKeepsAbsolute(p, CountAbsolute(p, old(Value()), w), w);
    }
  }

  lemma JudgeKeepsAbsolute(p: Params, d: Detector, w: Window)
    requires Scorable(w)
    ensures JudgeRelative(p, d, w).absRun == d.absRun && JudgeRelative(p, d, w).kind == d.kind
  {
    hide Train, Counted, KeyOf, Suspicious, Gap, Trains;
  }
}
