/** The adaptive bitrate controller of internal/desktop/abr.go. float64 is real; times are
    whole nanoseconds, None for the zero time. */
module Abr {
  import opened Words

  const MILLISECOND: int := 1_000_000
  const MAX_INT: int := 0x7FFF_FFFF_FFFF_FFFF
  const OPEN_HOLD: int := 5000 * MILLISECOND

  datatype Config = Config(minFPS: int, maxFPS: int, minWidth: int, maxWidth: int, minHeight: int, maxHeight: int,
                           minBitrateK: int, maxBitrateK: int, nativeWidth: int, nativeHeight: int, ladder: seq<real>)

  datatype Sample = Sample(lossPct: real, wantKeyframe: bool, recvKbps: int, jitterMs: int, stall: bool, streamFPS: real)

  datatype Abr = Abr(cfg: Config, fps: int, width: int, height: int, bitrateK: int, wantKey: bool,
                     lastAdj: Option<int>, cutStreak: int, rung: int, holdUntil: int)

  // ---- Go arithmetic ----

  function Max(a: int, b: int): int {
    if a > b then a else b
  }

  function Min(a: int, b: int): int {
    if a < b then a else b
  }

  function AbsInt(v: int): int {
    if v < 0 then -v else v
  }

  /** Division truncates towards zero. */
  function Quo(a: int, b: int): int
    requires b > 0
  {
    if a >= 0 then a / b else -(-a / b)
  }

  function Trunc(x: real): int {
    if x >= 0.0 then x.Floor else -(-x).Floor
  }

  /** v &^= 1. */
  function Even(v: int): (e: int)
    ensures e % 2 == 0 && e <= v <= e + 1
  {
    v - v % 2
  }

  // ---- the resolution ladder ----

  function ClampSide(v: int, lo: int, hi: int): int {
    var raised := if lo > 0 && v < lo then lo else v;
    if hi > 0 && raised > hi then hi else raised
  }

  function Reference(native: int, cap: int, current: int): int {
    if native > 0 then native else if cap > 0 then cap else current
  }

  function Scale(side: int, scale: real): int {
    Trunc(side as real * scale + 0.5)
  }

  function Side(native: int, lo: int, cap: int, current: int, scale: real): int {
    Even(ClampSide(Scale(Reference(native, cap, current), scale), lo, cap))
  }

  function SizeForRung(a: Abr, rung: int): (int, int) {
    if |a.cfg.ladder| == 0 then (a.width, a.height)
    else
      var scale := a.cfg.ladder[if rung < 0 then 0 else if rung >= |a.cfg.ladder| then |a.cfg.ladder| - 1 else rung];
      (Side(a.cfg.nativeWidth, a.cfg.minWidth, a.cfg.maxWidth, a.width, scale),
       Side(a.cfg.nativeHeight, a.cfg.minHeight, a.cfg.maxHeight, a.height, scale))
  }

  function Distance(a: Abr, rung: int, width: int, height: int): int {
    var (w, h) := SizeForRung(a, rung);
    AbsInt(w - width) + AbsInt(h - height)
  }

  /** The best of the first n rungs and its distance. */
  function NearestBelow(a: Abr, n: nat, width: int, height: int): (int, int) {
    if n == 0 then (0, MAX_INT)
    else
      var (best, dist) := NearestBelow(a, n - 1, width, height);
      var d := Distance(a, n - 1, width, height);
      if d < dist then (n - 1, d) else (best, dist)
  }

  function NearestRung(a: Abr, width: int, height: int): int {
    NearestBelow(a, |a.cfg.ladder|, width, height).0
  }

  /** The rung an OPEN gets is the first of those nearest to the size asked for. */
  lemma {:induction false} NearestIsNearest(a: Abr, n: nat, width: int, height: int)
    requires forall i | 0 <= i < n :: Distance(a, i, width, height) < MAX_INT
    ensures var (best, dist) := NearestBelow(a, n, width, height);
            && (n > 0 ==> 0 <= best < n && dist == Distance(a, best, width, height))
            && (forall i | 0 <= i < n :: dist <= Distance(a, i, width, height))
            && (forall i | 0 <= i < best :: dist < Distance(a, i, width, height))
  {
    hide Distance;
    if n > 0 {
      NearestIsNearest(a, n - 1, width, height);
    }
  }

  lemma {:induction false} NearestInRange(a: Abr, n: nat, width: int, height: int)
    ensures 0 <= NearestBelow(a, n, width, height).0 && (n > 0 ==> NearestBelow(a, n, width, height).0 < n)
  {
    hide Distance;
    if n > 0 {
      NearestInRange(a, n - 1, width, height);
    }
  }

  predicate Fits(s: real, refW: int, maxWidth: int) {
    Scale(refW, s) <= maxWidth + 2
  }

  /** Rungs whose scaled width fits the OPEN width, in ladder order. */
  function Fitting(ladder: seq<real>, refW: int, maxWidth: int): seq<real> {
    if ladder == [] then []
    else
      var before := Fitting(ladder[..|ladder| - 1], refW, maxWidth);
      var s := ladder[|ladder| - 1];
      if Fits(s, refW, maxWidth) then before + [s] else before
  }

  function Trimmed(cfg: Config): Config {
    if |cfg.ladder| == 0 || cfg.maxWidth <= 0 || cfg.maxHeight <= 0 then cfg
    else
      var kept := Fitting(cfg.ladder, if cfg.nativeWidth <= 0 then cfg.maxWidth else cfg.nativeWidth, cfg.maxWidth);
      cfg.(ladder := if kept == [] then [cfg.ladder[|cfg.ladder| - 1]] else kept)
  }

  function LockPixels(a: Abr): Abr {
    var c := a.cfg;
    var c1 := if a.width > 0 then c.(minWidth := a.width, maxWidth := a.width) else c;
    var c2 := if a.height > 0 then c1.(minHeight := a.height, maxHeight := a.height) else c1;
    a.(cfg := c2)
  }

  // ---- OPEN ----

  /** Trim the ladder, take the nearest rung and its size, and lock the pixels. */
  function Opened(a: Abr, width: int, height: int, now: int): Abr {
    var b := a.(cfg := Trimmed(a.cfg));
    var c := b.(rung := NearestRung(b, width, height));
    var (w, h) := if |c.cfg.ladder| > 0 then SizeForRung(c, c.rung) else (width, height);
    LockPixels(c.(width := Even(w), height := Even(h))).(holdUntil := now + OPEN_HOLD)
  }

  function NewABR(cfg: Config, width: int, height: int, fps: int, bitrateK: int, now: int): Abr {
    Opened(Abr(cfg, if fps <= 0 then 15 else fps, width, height, if bitrateK <= 0 then 2500 else bitrateK,
               false, None, 0, 0, 0), width, height, now)
  }

  function Capped(cfg: Config, width: int, height: int, fps: int, bitrateK: int): Config {
    var c0 := if width > 0 then cfg.(maxWidth := width) else cfg;
    var c1 := if height > 0 then c0.(maxHeight := height) else c0;
    var c2 := if bitrateK > 0 then c1.(maxBitrateK := bitrateK) else c1;
    if fps > 0 then c2.(maxFPS := fps) else c2
  }

  function ApplyOpenTarget(a: Abr, width: int, height: int, fps: int, bitrateK: int, cfg: Config, now: int): Abr {
    var b := a.(cfg := Capped(cfg, width, height, fps, bitrateK),
                bitrateK := if bitrateK > 0 then bitrateK else a.bitrateK,
                fps := if fps > 0 then fps else a.fps);
    Opened(b, width, height, now).(wantKey := true, cutStreak := 0, lastAdj := None)
  }

  // ---- one STATS sample ----

  function MinGap(s: Sample): int {
    if s.stall || s.lossPct > 12.0 then 250 * MILLISECOND else 500 * MILLISECOND
  }

  /** The sample arrives after the OPEN hold and late enough after the last adjustment. */
  predicate Effective(a: Abr, s: Sample, now: int) {
    now >= a.holdUntil && !(a.lastAdj.Some? && now - a.lastAdj.value < MinGap(s))
  }

  function EffLoss(s: Sample): real {
    if s.stall && s.lossPct < 8.0 then 8.0 else s.lossPct
  }

  predicate BandwidthPressure(a: Abr, s: Sample) {
    var demand := if a.fps as real * 0.6 < 5.0 then 5.0 else a.fps as real * 0.6;
    s.streamFPS >= demand && s.recvKbps > 0 && a.bitrateK > 800 && s.recvKbps < Quo(a.bitrateK * 7, 10)
  }

  predicate Worse(a: Abr, s: Sample) {
    EffLoss(s) > 12.0 || s.stall || (BandwidthPressure(a, s) && EffLoss(s) > 3.0)
  }

  predicate Bad(a: Abr, s: Sample) {
    EffLoss(s) > 5.0 || BandwidthPressure(a, s)
  }

  predicate Good(a: Abr, s: Sample) {
    EffLoss(s) < 1.0 && !s.stall && !BandwidthPressure(a, s)
  }

  predicate Locked(cfg: Config) {
    && cfg.maxWidth > 0 && cfg.minWidth >= cfg.maxWidth
    && cfg.maxHeight > 0 && cfg.minHeight >= cfg.maxHeight
  }

  function CapToReceive(a: Abr, recvKbps: int): Abr {
    if recvKbps <= 0 then a
    else
      var target := Max(a.cfg.minBitrateK, Quo(recvKbps * 85, 100));
      if a.bitrateK > target then a.(bitrateK := target) else a
  }

  /** The OPEN budget scaled by the square of the rung's scale relative to the top one. */
  function RungTarget(cfg: Config, rung: int): int
    requires 0 <= rung < |cfg.ladder| && cfg.ladder[0] > 0.0
  {
    var rel := cfg.ladder[rung] / cfg.ladder[0];
    Trunc(cfg.maxBitrateK as real * rel * rel + 0.5)
  }

  function RungBitrate(a: Abr): Abr
    requires 0 <= a.rung < |a.cfg.ladder|
  {
    if a.cfg.maxBitrateK <= 0 || a.cfg.ladder[0] <= 0.0 then a
    else a.(bitrateK := Max(a.cfg.minBitrateK, Min(a.cfg.maxBitrateK, RungTarget(a.cfg, a.rung))))
  }

  function AtRung(a: Abr, rung: int): Abr
    requires 0 <= rung < |a.cfg.ladder|
  {
    var (w, h) := SizeForRung(a, rung);
    RungBitrate(a.(rung := rung, width := w, height := h)).(wantKey := true)
  }

  function StepDown(a: Abr): Abr
    requires 0 <= a.rung
  {
    if a.rung + 1 >= |a.cfg.ladder| then a else AtRung(a, a.rung + 1)
  }

  function StepUp(a: Abr): Abr
    requires a.rung < |a.cfg.ladder|
  {
    if a.rung <= 0 then a else AtRung(a, a.rung - 1)
  }

  function Shrink(a: Abr, num: int, den: int): Abr
    requires den > 0
  {
    var minW := if a.cfg.maxWidth > 0 && a.cfg.minWidth > a.cfg.maxWidth then a.cfg.maxWidth else a.cfg.minWidth;
    var w := Max(minW, Quo(a.width * num, den));
    var minH0 := if a.cfg.minHeight <= 0 then Quo(minW * 9, 16) else a.cfg.minHeight;
    var minH := if a.cfg.maxHeight > 0 && minH0 > a.cfg.maxHeight then a.cfg.maxHeight else minH0;
    var h := Max(minH, Quo(a.height * num, den));
    a.(width := if a.cfg.maxWidth > 0 then Min(a.cfg.maxWidth, w) else w,
       height := if a.cfg.maxHeight > 0 then Min(a.cfg.maxHeight, h) else h)
  }

  function Grow(a: Abr): Abr {
    a.(width := Min(a.cfg.maxWidth, a.width + 40),
       height := Min(if a.cfg.maxHeight <= 0 then Quo(a.cfg.maxWidth * 9, 16) else a.cfg.maxHeight, a.height + 24))
  }

  function Cut(a: Abr, s: Sample, factor: int, fpsStep: int): Abr {
    var b := a.(cutStreak := a.cutStreak + 1, bitrateK := Max(a.cfg.minBitrateK, Quo(a.bitrateK * factor, 10)));
    var c := CapToReceive(b, s.recvKbps);
    c.(fps := Max(c.cfg.minFPS, c.fps - fpsStep))
  }

  function OnWorse(a: Abr, s: Sample): Abr
    requires RungOk(a)
  {
    var c := Cut(a, s, if a.cutStreak + 1 >= 3 then 5 else 6, 5);
    var d := if Locked(c.cfg) then c else if |c.cfg.ladder| > 0 then StepDown(c) else Shrink(c, 3, 4);
    d.(wantKey := true)
  }

  function OnBad(a: Abr, s: Sample): Abr
    requires RungOk(a)
  {
    var c := Cut(a, s, 8, 2);
    if c.cutStreak >= 2 && (EffLoss(s) > 8.0 || s.jitterMs > 70) && !Locked(c.cfg)
    then if |c.cfg.ladder| > 0 then StepDown(c) else Shrink(c, 7, 8)
    else c
  }

  function OnGood(a: Abr): Abr
    requires RungOk(a)
  {
    var b := a.(cutStreak := 0,
                bitrateK := Min(a.cfg.maxBitrateK, Quo(a.bitrateK * 105, 100) + 50),
                fps := Min(a.cfg.maxFPS, a.fps + 1));
    if Locked(b.cfg) || b.bitrateK <= b.cfg.minBitrateK * 2 then b
    else if |b.cfg.ladder| > 0 then StepUp(b)
    else if b.width < b.cfg.maxWidth then Grow(b)
    else b
  }

  function React(a: Abr, s: Sample): Abr
    requires RungOk(a)
  {
    if Worse(a, s) then OnWorse(a, s)
    else if Bad(a, s) then OnBad(a, s)
    else if Good(a, s) then OnGood(a)
    else a.(cutStreak := if a.cutStreak > 0 then a.cutStreak - 1 else a.cutStreak)
  }

  function Adjust(a: Abr, s: Sample): Abr
    requires RungOk(a)
  {
    var b := React(a, s);
    var c := if Locked(a.cfg) then b.(width := b.cfg.maxWidth, height := b.cfg.maxHeight) else b;
    c.(width := Even(c.width), height := Even(c.height))
  }

  /** OnStatsSample. */
  function OnSample(a: Abr, s: Sample, now: int): Abr
    requires RungOk(a)
  {
    var b := a.(wantKey := a.wantKey || s.wantKeyframe || s.stall);
    if !Effective(b, s, now) then b else Adjust(b.(lastAdj := Some(now)), s)
  }

  /** rung indexes the ladder (0 when there is none). */
  predicate RungOk(a: Abr) {
    0 <= a.rung && (|a.cfg.ladder| > 0 ==> a.rung < |a.cfg.ladder|) && (|a.cfg.ladder| == 0 ==> a.rung == 0)
  }

  // ---- runs between OPENs ----

  predicate BitrateInLimits(a: Abr) {
    0 <= a.cfg.minBitrateK <= a.bitrateK <= a.cfg.maxBitrateK
  }

  predicate RateInLimits(a: Abr) {
    a.cfg.minFPS <= a.fps <= a.cfg.maxFPS
  }

  /** Same OPEN, a valid rung, and each of the two limits respected if it was. */
  ghost predicate Continues(a: Abr, b: Abr) {
    && RungOk(b) && b.cfg == a.cfg && b.holdUntil == a.holdUntil
    && (BitrateInLimits(a) ==> BitrateInLimits(b))
    && (RateInLimits(a) ==> RateInLimits(b))
  }

  lemma Scaled(b: int, factor: int)
    requires b >= 0 && 1 <= factor <= 10
    ensures 0 <= Quo(b * factor, 10) <= b
  {
    assert b * factor <= b * 10;
  }

  lemma CapContinues(a: Abr, recvKbps: int)
    requires RungOk(a)
    ensures var b := CapToReceive(a, recvKbps);
            && Continues(a, b) && b == a.(bitrateK := b.bitrateK) && b.bitrateK <= a.bitrateK
            && (a.bitrateK >= a.cfg.minBitrateK ==> b.bitrateK >= a.cfg.minBitrateK)
  {
    hide Quo;
  }

  lemma CutContinues(a: Abr, s: Sample, factor: int, fpsStep: int)
    requires RungOk(a) && 1 <= factor <= 10 && fpsStep >= 0
    ensures var b := Cut(a, s, factor, fpsStep);
            && Continues(a, b)
            && b.rung == a.rung && b.lastAdj == a.lastAdj && b.cutStreak == a.cutStreak + 1
            && a.cfg.minBitrateK <= b.bitrateK <= Max(a.cfg.minBitrateK, Quo(a.bitrateK * factor, 10))
  {
    if a.bitrateK >= 0 {
      Scaled(a.bitrateK, factor);
    }
    hide Quo, CapToReceive;
    var b := a.(cutStreak := a.cutStreak + 1, bitrateK := Max(a.cfg.minBitrateK, Quo(a.bitrateK * factor, 10)));
    CapContinues(b, s.recvKbps);
  }

  lemma StepsContinue(a: Abr)
    requires RungOk(a) && |a.cfg.ladder| > 0
    ensures Continues(a, StepDown(a)) && Continues(a, StepUp(a))
  {
    hide SizeForRung, RungTarget;
  }

  lemma ShrinkContinues(a: Abr, num: int, den: int)
    requires RungOk(a) && den > 0
    ensures Continues(a, Shrink(a, num, den))
  {
    hide Quo, Max, Min;
  }

  lemma WorseContinues(a: Abr, s: Sample)
    requires RungOk(a)
    ensures Continues(a, OnWorse(a, s))
    ensures Locked(a.cfg) ==> OnWorse(a, s) == Cut(a, s, if a.cutStreak + 1 >= 3 then 5 else 6, 5).(wantKey := true)
  {
    hide Cut, StepDown, StepUp, Shrink;
    var c := Cut(a, s, if a.cutStreak + 1 >= 3 then 5 else 6, 5);
    CutContinues(a, s, if a.cutStreak + 1 >= 3 then 5 else 6, 5);
    if |c.cfg.ladder| > 0 {
      StepsContinue(c);
    }
    ShrinkContinues(c, 3, 4);
  }

  lemma BadContinues(a: Abr, s: Sample)
    requires RungOk(a)
    ensures Continues(a, OnBad(a, s))
    ensures Locked(a.cfg) ==> OnBad(a, s) == Cut(a, s, 8, 2)
  {
    hide Cut, StepDown, StepUp, Shrink, EffLoss;
    var c := Cut(a, s, 8, 2);
    CutContinues(a, s, 8, 2);
    if |c.cfg.ladder| > 0 {
      StepsContinue(c);
    }
    ShrinkContinues(c, 7, 8);
  }

  function Raised(a: Abr): Abr {
    a.(cutStreak := 0,
       bitrateK := Min(a.cfg.maxBitrateK, Quo(a.bitrateK * 105, 100) + 50),
       fps := Min(a.cfg.maxFPS, a.fps + 1))
  }

  lemma GoodContinues(a: Abr)
    requires RungOk(a)
    ensures Continues(a, OnGood(a))
    ensures Locked(a.cfg) ==> OnGood(a) == Raised(a)
  {
    assert Continues(a, Raised(a));
    hide StepDown, StepUp, Quo, Min;
    if |a.cfg.ladder| > 0 {
      StepsContinue(Raised(a));
    }
  }

  lemma ReactContinues(a: Abr, s: Sample)
    requires RungOk(a)
    ensures Continues(a, React(a, s))
  {
    WorseContinues(a, s);
    BadContinues(a, s);
    GoodContinues(a);
    hide OnWorse, OnBad, OnGood, Worse, Bad, Good, Locked;
  }

  lemma AdjustContinues(a: Abr, s: Sample)
    requires RungOk(a)
    ensures Continues(a, Adjust(a, s))
  {
    ReactContinues(a, s);
    hide React, Even, Locked;
  }

  lemma SampleContinues(a: Abr, s: Sample, now: int)
    requires RungOk(a)
    ensures Continues(a, OnSample(a, s, now))
  {
    hide Adjust, Effective;
    AdjustContinues(a.(wantKey := a.wantKey || s.wantKeyframe || s.stall, lastAdj := Some(now)), s);
  }

  function OnSamples(a: Abr, ss: seq<(Sample, int)>): Abr
    requires RungOk(a)
    decreases |ss|
  {
    if ss == [] then a
    else
      SampleContinues(a, ss[0].0, ss[0].1);
      OnSamples(OnSample(a, ss[0].0, ss[0].1), ss[1..])
  }

  /** The limits leave one size, and it is the current one. */
  predicate Held(a: Abr) {
    && RungOk(a) && Locked(a.cfg)
    && a.width == Even(a.cfg.maxWidth) && a.height == Even(a.cfg.maxHeight)
  }

  predicate SamePicture(a: Abr, b: Abr) {
    b.width == a.width && b.height == a.height && b.rung == a.rung
  }

  lemma HeldSample(a: Abr, s: Sample, now: int)
    requires Held(a)
    ensures var b := OnSample(a, s, now);
            Held(b) && b.cfg == a.cfg && SamePicture(a, b)
  {
    SampleContinues(a, s, now);
    var b := a.(wantKey := a.wantKey || s.wantKeyframe || s.stall, lastAdj := Some(now));
    WorseContinues(b, s);
    BadContinues(b, s);
    GoodContinues(b);
    CutContinues(b, s, if a.cutStreak + 1 >= 3 then 5 else 6, 5);
    CutContinues(b, s, 8, 2);
    hide OnWorse, OnBad, OnGood, Worse, Bad, Good, Cut;
  }

  lemma {:induction false} HeldStays(a: Abr, ss: seq<(Sample, int)>)
    requires Held(a)
    ensures var b := OnSamples(a, ss); Held(b) && Continues(a, b) && SamePicture(a, b)
    decreases |ss|
  {
    if ss != [] {
      HeldSample(a, ss[0].0, ss[0].1);
      SampleContinues(a, ss[0].0, ss[0].1);
      hide OnSample;
      HeldStays(OnSample(a, ss[0].0, ss[0].1), ss[1..]);
    }
  }

  // ---- what an OPEN locks ----

  lemma TrimKeepsARung(cfg: Config)
    ensures |Trimmed(cfg).ladder| == 0 <==> |cfg.ladder| == 0
    ensures Trimmed(cfg).(ladder := cfg.ladder) == cfg
  {
    hide Fitting;
  }

  /** Exactly the rungs whose width fits the OPEN width survive the trim. */
  lemma {:induction false} FittingIsTheFilter(ladder: seq<real>, refW: int, maxWidth: int)
    ensures forall s :: s in Fitting(ladder, refW, maxWidth) <==> s in ladder && Fits(s, refW, maxWidth)
    ensures |Fitting(ladder, refW, maxWidth)| <= |ladder|
  {
    hide Fits;
    if ladder != [] {
      FittingIsTheFilter(ladder[..|ladder| - 1], refW, maxWidth);
      assert ladder == ladder[..|ladder| - 1] + [ladder[|ladder| - 1]];
    }
  }

  /** Limits that hold a side: a minimum of two pixels, or one no smaller than the cap. */
  predicate Firm(lo: int, cap: int) {
    lo >= 2 || 0 < cap <= lo
  }

  /** The side at any rung is locked, or the limits already leave nothing else. */
  lemma FirmSide(native: int, lo: int, cap: int, current: int, scale: real)
    requires Firm(lo, cap)
    ensures var v := Side(native, lo, cap, current, scale);
            v % 2 == 0 && (v >= 2 || (v == 0 && cap == 1 && lo >= 1))
  {
    hide Scale, Reference;
  }

  lemma FirmSize(a: Abr, rung: int)
    requires |a.cfg.ladder| > 0 && Firm(a.cfg.minWidth, a.cfg.maxWidth) && Firm(a.cfg.minHeight, a.cfg.maxHeight)
    ensures var (w, h) := SizeForRung(a, rung);
            && w % 2 == 0 && (w >= 2 || (w == 0 && a.cfg.maxWidth == 1 && a.cfg.minWidth >= 1))
            && h % 2 == 0 && (h >= 2 || (h == 0 && a.cfg.maxHeight == 1 && a.cfg.minHeight >= 1))
  {
    hide Side;
    var scale := a.cfg.ladder[if rung < 0 then 0 else if rung >= |a.cfg.ladder| then |a.cfg.ladder| - 1 else rung];
    FirmSide(a.cfg.nativeWidth, a.cfg.minWidth, a.cfg.maxWidth, a.width, scale);
    FirmSide(a.cfg.nativeHeight, a.cfg.minHeight, a.cfg.maxHeight, a.height, scale);
  }

  lemma OpenIsEven(a: Abr, width: int, height: int, now: int)
    ensures var o := Opened(a, width, height, now); RungOk(o) && o.width % 2 == 0 && o.height % 2 == 0
  {
    var b := a.(cfg := Trimmed(a.cfg));
    NearestInRange(b, |b.cfg.ladder|, width, height);
    hide Trimmed, NearestBelow, SizeForRung;
  }

  /** With a ladder every OPEN holds the picture, whatever size it asks for and whatever cap it
      sets. openDesktop and reopenDesktopSoft build limits like these. */
  lemma LadderOpenHolds(a: Abr, width: int, height: int, now: int)
    requires |a.cfg.ladder| > 0 && Firm(a.cfg.minWidth, a.cfg.maxWidth) && Firm(a.cfg.minHeight, a.cfg.maxHeight)
    ensures Held(Opened(a, width, height, now))
  {
    OpenIsEven(a, width, height, now);
    TrimKeepsARung(a.cfg);
    var b := a.(cfg := Trimmed(a.cfg));
    var c := b.(rung := NearestRung(b, width, height));
    FirmSize(c, c.rung);
    hide Trimmed, NearestBelow, SizeForRung;
  }

  /** Between two OPENs, whatever the client reports, size and rung stay as the OPEN left them.
      What becomes of bitrate and frame rate is BudgetIffAboveMinimum and RateIffAboveMinimum. */
  lemma NothingMovesBetweenOpens(a: Abr, width: int, height: int, now: int, ss: seq<(Sample, int)>)
    requires |a.cfg.ladder| > 0 && Firm(a.cfg.minWidth, a.cfg.maxWidth) && Firm(a.cfg.minHeight, a.cfg.maxHeight)
    ensures var o := Opened(a, width, height, now);
            && RungOk(o) && SamePicture(o, OnSamples(o, ss)) && Continues(o, OnSamples(o, ss))
  {
    hide Opened;
    LadderOpenHolds(a, width, height, now);
    HeldStays(Opened(a, width, height, now), ss);
  }

  // ---- when exactly nothing moves ----

  ghost predicate Fixed(a: Abr)
    requires RungOk(a)
  {
    forall ss :: SamePicture(a, OnSamples(a, ss))
  }

  predicate ShrinksInPlace(a: Abr, num: int, den: int)
    requires den > 0
  {
    var b := Shrink(a, num, den); Even(b.width) == a.width && Even(b.height) == a.height
  }

  predicate GrowsInPlace(a: Abr) {
    a.width >= a.cfg.maxWidth || (Even(Grow(a).width) == a.width && Even(Grow(a).height) == a.height)
  }

  /** Good samples can take the bitrate above twice its minimum. */
  predicate CanRise(cfg: Config) {
    cfg.maxBitrateK > cfg.minBitrateK * 2
  }

  /** No single reaction moves the picture: it is held, or on the only rung in reach, or at the
      end of its range. */
  predicate Stays(a: Abr) {
    if Locked(a.cfg) then a.width == Even(a.cfg.maxWidth) && a.height == Even(a.cfg.maxHeight)
    else if |a.cfg.ladder| > 0 then a.rung + 1 >= |a.cfg.ladder| && (a.rung == 0 || !CanRise(a.cfg))
    else ShrinksInPlace(a, 3, 4) && (GrowsInPlace(a) || !CanRise(a.cfg))
  }

  lemma GentlerSide(v: int, lo: int, hi: int)
    requires v % 2 == 0
    requires var w := Max(lo, Quo(v * 3, 4)); Even(if hi > 0 then Min(hi, w) else w) == v
    ensures var w := Max(lo, Quo(v * 7, 8)); Even(if hi > 0 then Min(hi, w) else w) == v
  {
  }

  lemma GentlerShrink(a: Abr)
    requires a.width % 2 == 0 && a.height % 2 == 0 && ShrinksInPlace(a, 3, 4)
    ensures ShrinksInPlace(a, 7, 8)
  {
    var minW := if a.cfg.maxWidth > 0 && a.cfg.minWidth > a.cfg.maxWidth then a.cfg.maxWidth else a.cfg.minWidth;
    var minH0 := if a.cfg.minHeight <= 0 then Quo(minW * 9, 16) else a.cfg.minHeight;
    var minH := if a.cfg.maxHeight > 0 && minH0 > a.cfg.maxHeight then a.cfg.maxHeight else minH0;
    hide Quo, Max, Min, Even;
    GentlerSide(a.width, minW, a.cfg.maxWidth);
    GentlerSide(a.height, minH, a.cfg.maxHeight);
  }

  /** What a reaction does to the picture before it is made even. */
  lemma WorseMoves(a: Abr, s: Sample)
    requires RungOk(a) && !Locked(a.cfg)
    ensures var b := OnWorse(a, s);
            if |a.cfg.ladder| == 0 then b.width == Shrink(a, 3, 4).width && b.height == Shrink(a, 3, 4).height && b.rung == a.rung
            else if a.rung + 1 < |a.cfg.ladder| then b.rung == a.rung + 1
            else SamePicture(a, b)
  {
    hide Quo, Max, Min, SizeForRung, RungTarget;
  }

  lemma BadMoves(a: Abr, s: Sample)
    requires RungOk(a) && !Locked(a.cfg)
    ensures var b := OnBad(a, s);
            || SamePicture(a, b)
            || (|a.cfg.ladder| > 0 && a.rung + 1 < |a.cfg.ladder|)
            || (|a.cfg.ladder| == 0 && b.width == Shrink(a, 7, 8).width && b.height == Shrink(a, 7, 8).height && b.rung == a.rung)
  {
    hide Quo, Max, Min, SizeForRung, RungTarget, EffLoss;
  }

  /** The bitrate with which a good sample decides whether to move up. */
  function RaisedTo(a: Abr): int {
    Min(a.cfg.maxBitrateK, Quo(a.bitrateK * 105, 100) + 50)
  }

  lemma GoodMoves(a: Abr)
    requires RungOk(a) && !Locked(a.cfg)
    ensures var b := OnGood(a);
            if RaisedTo(a) <= a.cfg.minBitrateK * 2 then SamePicture(a, b) && b.bitrateK == RaisedTo(a)
            else if |a.cfg.ladder| > 0 then (if a.rung > 0 then b.rung == a.rung - 1 else SamePicture(a, b))
            else if a.width < a.cfg.maxWidth then
              b.width == Grow(a).width && b.height == Grow(a).height && b.rung == a.rung
            else SamePicture(a, b)
  {
    hide Quo, SizeForRung, RungTarget;
  }

  lemma StayingReaction(a: Abr, s: Sample)
    requires RungOk(a) && !Locked(a.cfg) && Stays(a) && a.width % 2 == 0 && a.height % 2 == 0
    ensures var b := React(a, s); b.rung == a.rung && Even(b.width) == a.width && Even(b.height) == a.height
  {
    WorseMoves(a, s);
    BadMoves(a, s);
    GoodMoves(a);
    assert RaisedTo(a) <= a.cfg.maxBitrateK;
    if |a.cfg.ladder| == 0 {
      GentlerShrink(a);
    }
    hide OnWorse, OnBad, OnGood, Worse, Bad, Good, Shrink, Grow, RaisedTo;
  }

  lemma StayingSample(a: Abr, s: Sample, now: int)
    requires RungOk(a) && Stays(a) && a.width % 2 == 0 && a.height % 2 == 0
    ensures var b := OnSample(a, s, now); RungOk(b) && b.cfg == a.cfg && SamePicture(a, b) && Stays(b)
  {
    SampleContinues(a, s, now);
    StaysIsAboutPictures(a, OnSample(a, s, now));
    if Locked(a.cfg) {
      HeldSample(a, s, now);
    } else {
      UnlockedSample(a, s, now);
    }
    hide Stays, OnSample;
  }

  lemma UnlockedSample(a: Abr, s: Sample, now: int)
    requires RungOk(a) && !Locked(a.cfg) && Stays(a) && a.width % 2 == 0 && a.height % 2 == 0
    ensures SamePicture(a, OnSample(a, s, now))
  {
    var b := a.(wantKey := a.wantKey || s.wantKeyframe || s.stall, lastAdj := Some(now));
    StaysIsAboutPictures(a, b);
    hide React, Stays, Effective;
    StayingReaction(b, s);
  }

  lemma StaysIsAboutPictures(a: Abr, b: Abr)
    requires b.cfg == a.cfg
    ensures SamePicture(a, b) ==> (Stays(a) <==> Stays(b))
  {
    hide Quo, Max, Min;
  }

  // The converse: an effective sample of heavy loss, or a run of clean ones.

  const HEAVY_LOSS := Sample(20.0, false, 0, 0, false, 0.0)
  const NO_LOSS := Sample(0.0, false, 0, 0, false, 0.0)

  function Late(a: Abr): int {
    var t := if a.lastAdj.Some? then a.lastAdj.value + 500 * MILLISECOND else a.holdUntil;
    if t < a.holdUntil then a.holdUntil else t
  }

  lemma LateSamples(a: Abr)
    requires RungOk(a)
    ensures var b := a.(lastAdj := Some(Late(a)));
            && RungOk(b) && Worse(b, HEAVY_LOSS) && !Worse(b, NO_LOSS) && !Bad(b, NO_LOSS) && Good(b, NO_LOSS)
            && OnSample(a, HEAVY_LOSS, Late(a)) == Adjust(b, HEAVY_LOSS)
            && OnSample(a, NO_LOSS, Late(a)) == Adjust(b, NO_LOSS)
  {
    hide Adjust;
  }

  lemma OneSample(a: Abr, s: Sample, now: int)
    requires RungOk(a)
    ensures OnSamples(a, [(s, now)]) == OnSample(a, s, now)
  {
    SampleContinues(a, s, now);
    hide OnSample;
    assert [(s, now)][1..] == [];
  }

  lemma HeavyLossMoves(a: Abr)
    requires RungOk(a) && a.width % 2 == 0 && a.height % 2 == 0
    requires if Locked(a.cfg) then !Stays(a)
             else if |a.cfg.ladder| > 0 then a.rung + 1 < |a.cfg.ladder|
             else !ShrinksInPlace(a, 3, 4)
    ensures !SamePicture(a, OnSample(a, HEAVY_LOSS, Late(a)))
  {
    LateSamples(a);
    var b := a.(lastAdj := Some(Late(a)));
    ReactContinues(b, HEAVY_LOSS);
    if !Locked(a.cfg) {
      WorseMoves(b, HEAVY_LOSS);
    }
    hide OnWorse, OnSample, Worse, Good, Bad;
  }

  /** Clean samples raise the bitrate until one of them moves the picture up. */
  lemma {:induction false} CleanRunMoves(a: Abr) returns (ss: seq<(Sample, int)>)
    requires RungOk(a) && a.width % 2 == 0 && a.height % 2 == 0 && a.bitrateK >= 0
    requires !Locked(a.cfg) && CanRise(a.cfg)
    requires if |a.cfg.ladder| > 0 then a.rung > 0 else !GrowsInPlace(a)
    ensures !SamePicture(a, OnSamples(a, ss))
    decreases if a.bitrateK > a.cfg.maxBitrateK then 0 else a.cfg.maxBitrateK - a.bitrateK
  {
    var b := OnSample(a, NO_LOSS, Late(a));
    CleanSample(a);
    if RaisedTo(a) > a.cfg.minBitrateK * 2 {
      OneSample(a, NO_LOSS, Late(a));
      ss := [(NO_LOSS, Late(a))];
    } else {
      hide OnSample, Locked;
      SampleContinues(a, NO_LOSS, Late(a));
      var rest := CleanRunMoves(b);
      ss := [(NO_LOSS, Late(a))] + rest;
      assert ss[1..] == rest;
    }
  }

  lemma CleanSample(a: Abr)
    requires RungOk(a) && a.width % 2 == 0 && a.height % 2 == 0 && a.bitrateK >= 0
    requires !Locked(a.cfg) && CanRise(a.cfg)
    requires if |a.cfg.ladder| > 0 then a.rung > 0 else !GrowsInPlace(a)
    ensures var b := OnSample(a, NO_LOSS, Late(a));
            && RungOk(b) && b.cfg == a.cfg
            && (SamePicture(a, b) <==> RaisedTo(a) <= a.cfg.minBitrateK * 2)
            && (RaisedTo(a) <= a.cfg.minBitrateK * 2 ==>
                  b.bitrateK >= a.bitrateK + 50 && b.bitrateK <= a.cfg.maxBitrateK && (GrowsInPlace(a) <==> GrowsInPlace(b)))
  {
    LateSamples(a);
    SampleContinues(a, NO_LOSS, Late(a));
    var b := a.(lastAdj := Some(Late(a)));
    GoodMoves(b);
    hide OnGood, OnSample, Worse, Good, Bad;
  }

  /** Exactly when nothing moves, for any state an OPEN can leave, on any ladder: whatever is
      reported, size and rung stay iff no single reaction moves them. */
  lemma FixedIffStays(a: Abr)
    requires RungOk(a) && a.width % 2 == 0 && a.height % 2 == 0 && a.bitrateK >= 0
    ensures Fixed(a) <==> Stays(a)
  {
    if Stays(a) {
      forall ss ensures SamePicture(a, OnSamples(a, ss)) {
        StayingRun(a, ss);
      }
    } else if !Locked(a.cfg) && (if |a.cfg.ladder| > 0 then a.rung + 1 >= |a.cfg.ladder| else ShrinksInPlace(a, 3, 4)) {
      hide Shrink, Grow, Locked;
      var ss := CleanRunMoves(a);
      assert !SamePicture(a, OnSamples(a, ss));
    } else {
      HeavyLossMoves(a);
      hide OnSample, Shrink, Grow, Locked;
      OneSample(a, HEAVY_LOSS, Late(a));
      assert !SamePicture(a, OnSamples(a, [(HEAVY_LOSS, Late(a))]));
    }
  }

  lemma {:induction false} StayingRun(a: Abr, ss: seq<(Sample, int)>)
    requires RungOk(a) && Stays(a) && a.width % 2 == 0 && a.height % 2 == 0
    ensures SamePicture(a, OnSamples(a, ss))
    decreases |ss|
  {
    if ss != [] {
      StayingSample(a, ss[0].0, ss[0].1);
      hide OnSample, Stays;
      StayingRun(OnSample(a, ss[0].0, ss[0].1), ss[1..]);
    }
  }

  /** What the lock makes of the size asked for when there is no ladder. */
  function Rounded(a: Abr, width: int, height: int): Abr {
    LockPixels(a.(rung := 0, width := Even(width), height := Even(height)))
  }

  predicate KeptSide(v: int, cap: int) {
    v >= 2 || (cap == 1 && v >= 0)
  }

  /** Without a ladder the size asked for and the limits decide, through one reaction on the
      rounded size; with minima of at least two pixels, by each side being at least two, or 0
      or 1 under a cap of one. */
  lemma OpenWithoutLadder(a: Abr, width: int, height: int, now: int)
    requires a.cfg.ladder == [] && a.bitrateK >= 0
    ensures RungOk(Opened(a, width, height, now))
    ensures Fixed(Opened(a, width, height, now)) <==> Stays(Rounded(a, width, height))
    ensures a.cfg.minWidth >= 2 && a.cfg.minHeight >= 2 ==>
              (Fixed(Opened(a, width, height, now))
               <==> KeptSide(width, a.cfg.maxWidth) && KeptSide(height, a.cfg.maxHeight))
  {
    OpenIsEven(a, width, height, now);
    var o := Opened(a, width, height, now);
    FixedIffStays(o);
    OpenIsRounded(a, width, height, now);
    StaysIsAboutPictures(Rounded(a, width, height), o);
    if a.cfg.minWidth >= 2 && a.cfg.minHeight >= 2 {
      RoundedStays(a, width, height);
    }
    hide Opened, Rounded, Stays, Fixed;
  }

  lemma OpenIsRounded(a: Abr, width: int, height: int, now: int)
    requires a.cfg.ladder == []
    ensures var o, r := Opened(a, width, height, now), Rounded(a, width, height);
            o.cfg == r.cfg && SamePicture(r, o) && o.bitrateK == a.bitrateK
  {
    assert Trimmed(a.cfg) == a.cfg;
  }

  lemma RoundedStays(a: Abr, width: int, height: int)
    requires a.cfg.ladder == [] && a.cfg.minWidth >= 2 && a.cfg.minHeight >= 2
    ensures Stays(Rounded(a, width, height))
       <==> KeptSide(width, a.cfg.maxWidth) && KeptSide(height, a.cfg.maxHeight)
  {
  }

  /** One such OPEN: 1 by 1 without a ladder rounds to 0 by 0, and one clean sample moves it. */
  lemma OnePixelOpenDrifts(cfg: Config)
    requires cfg.ladder == [] && 0 < cfg.minWidth < 1000 && cfg.maxWidth == 1000 && cfg.maxHeight == 1000
    requires cfg.minBitrateK == 100 && cfg.maxBitrateK == 1000 && 1 <= cfg.minFPS < 20 && cfg.maxFPS == 30
    ensures var a := NewABR(cfg, 1, 1, 20, 500, 0);
            && BitrateInLimits(a) && RateInLimits(a) && RungOk(a) && a.width == 0
            && OnSample(a, NO_LOSS, OPEN_HOLD).width == 40
  {
    var a := NewABR(cfg, 1, 1, 20, 500, 0);
    assert Trimmed(cfg) == cfg;
    assert a == Abr(cfg, 20, 0, 0, 500, false, None, 0, 0, OPEN_HOLD);
  }

  // ---- the OPEN budget ----

  ghost predicate WithinBudget(a: Abr)
    requires RungOk(a)
  {
    forall ss :: OnSamples(a, ss).bitrateK <= a.cfg.maxBitrateK
  }

  lemma CutKeepsBudget(a: Abr, s: Sample, factor: int, fpsStep: int)
    requires 0 <= a.bitrateK <= a.cfg.maxBitrateK && 0 <= a.cfg.minBitrateK <= a.cfg.maxBitrateK && 1 <= factor <= 10
    requires RungOk(a)
    ensures 0 <= Cut(a, s, factor, fpsStep).bitrateK <= a.cfg.maxBitrateK
  {
    Scaled(a.bitrateK, factor);
    var b := a.(cutStreak := a.cutStreak + 1, bitrateK := Max(a.cfg.minBitrateK, Quo(a.bitrateK * factor, 10)));
    CapContinues(b, s.recvKbps);
    hide Quo;
  }

  lemma ReactKeepsBudget(a: Abr, s: Sample)
    requires RungOk(a) && Locked(a.cfg)
    requires 0 <= a.bitrateK <= a.cfg.maxBitrateK && 0 <= a.cfg.minBitrateK <= a.cfg.maxBitrateK
    ensures 0 <= React(a, s).bitrateK <= a.cfg.maxBitrateK
  {
    WorseContinues(a, s);
    BadContinues(a, s);
    GoodContinues(a);
    CutKeepsBudget(a, s, if a.cutStreak + 1 >= 3 then 5 else 6, 5);
    CutKeepsBudget(a, s, 8, 2);
    hide OnWorse, OnBad, OnGood, Worse, Bad, Good, Cut, Locked;
  }

  lemma SampleKeepsBudget(a: Abr, s: Sample, now: int)
    requires Held(a) && 0 <= a.bitrateK <= a.cfg.maxBitrateK && 0 <= a.cfg.minBitrateK <= a.cfg.maxBitrateK
    ensures 0 <= OnSample(a, s, now).bitrateK <= a.cfg.maxBitrateK
  {
    ReactKeepsBudget(a.(wantKey := a.wantKey || s.wantKeyframe || s.stall, lastAdj := Some(now)), s);
    hide React, Effective;
  }

  lemma {:induction false} RunKeepsBudget(a: Abr, ss: seq<(Sample, int)>)
    requires Held(a) && 0 <= a.bitrateK <= a.cfg.maxBitrateK && 0 <= a.cfg.minBitrateK <= a.cfg.maxBitrateK
    ensures OnSamples(a, ss).bitrateK <= a.cfg.maxBitrateK
    decreases |ss|
  {
    if ss != [] {
      HeldSample(a, ss[0].0, ss[0].1);
      SampleKeepsBudget(a, ss[0].0, ss[0].1);
      hide OnSample;
      RunKeepsBudget(OnSample(a, ss[0].0, ss[0].1), ss[1..]);
    }
  }

  /** The bitrate respects the OPEN budget over every run exactly when the budget is not below
      the minimum. reopenDesktopSoft keeps the default minimum whatever the budget. */
  lemma BudgetIffAboveMinimum(a: Abr)
    requires Held(a) && 0 <= a.bitrateK <= a.cfg.maxBitrateK && a.cfg.minBitrateK >= 0
    ensures WithinBudget(a) <==> a.cfg.minBitrateK <= a.cfg.maxBitrateK
  {
    if a.cfg.minBitrateK <= a.cfg.maxBitrateK {
      forall ss ensures OnSamples(a, ss).bitrateK <= a.cfg.maxBitrateK {
        RunKeepsBudget(a, ss);
      }
    } else {
      BudgetBelowMinimum(a);
      OneSample(a, HEAVY_LOSS, Late(a));
      hide OnSample;
      assert OnSamples(a, [(HEAVY_LOSS, Late(a))]).bitrateK > a.cfg.maxBitrateK;
    }
  }

  /** Otherwise the first heavy loss raises the bitrate to the minimum. */
  lemma BudgetBelowMinimum(a: Abr)
    requires Held(a) && 0 <= a.bitrateK <= a.cfg.maxBitrateK < a.cfg.minBitrateK
    ensures OnSample(a, HEAVY_LOSS, Late(a)).bitrateK == a.cfg.minBitrateK
  {
    LateSamples(a);
    var b := a.(lastAdj := Some(Late(a)));
    WorseContinues(b, HEAVY_LOSS);
    Scaled(a.bitrateK, if a.cutStreak + 1 >= 3 then 5 else 6);
    hide OnWorse, OnSample, Worse, Good, Bad;
  }

  /** A soft reopen at 250 kb/s, with the default minima. */
  lemma LowReopenIsRaised(a: Abr, now: int)
    ensures var o := ApplyOpenTarget(a, 1280, 720, 30, 250, ReopenLimits(30, 250), now);
            && Held(o) && o.bitrateK == o.cfg.maxBitrateK == 250
            && OnSample(o, HEAVY_LOSS, Late(o)).bitrateK == 300
  {
    var cfg := ReopenLimits(30, 250);
    var b := a.(cfg := Capped(cfg, 1280, 720, 30, 250), bitrateK := 250, fps := 30);
    LadderOpenHolds(b, 1280, 720, now);
    OpenKeepsLimits(b, 1280, 720, now);
    hide Opened;
    BudgetBelowMinimum(ApplyOpenTarget(a, 1280, 720, 30, 250, cfg, now));
  }

  /** DefaultABR with the caps of a 1280 by 720 session on a full-HD display, as
      reopenDesktopSoft passes it. */
  function ReopenLimits(fps: int, bitrateK: int): Config {
    Config(5, fps, 640, 1280, 360, 720, 300, bitrateK, 1920, 1080, [1.0, 0.75, 0.55, 0.35])
  }

  /** And as openDesktop does, with the lowest rung of the display as the smallest picture. */
  function AgentLimits(fps: int, minBitrateK: int, bitrateK: int): Config {
    Config(5, fps, 672, 1280, 378, 720, minBitrateK, bitrateK, 1920, 1080, [1.0, 0.75, 0.55, 0.35])
  }

  lemma OpenKeepsLimits(a: Abr, width: int, height: int, now: int)
    ensures var o := Opened(a, width, height, now);
            && o.bitrateK == a.bitrateK && o.fps == a.fps && o.cutStreak == a.cutStreak
            && o.cfg.minBitrateK == a.cfg.minBitrateK && o.cfg.maxBitrateK == a.cfg.maxBitrateK
            && o.cfg.minFPS == a.cfg.minFPS && o.cfg.maxFPS == a.cfg.maxFPS
  {
    TrimKeepsARung(a.cfg);
    hide Trimmed, NearestBelow, SizeForRung;
  }

  /** The minimum openDesktop sets for a first OPEN. */
  function FirstMinimum(bitrateK: int): int {
    if 300 > bitrateK then Max(200, Quo(bitrateK, 2)) else 300
  }

  /** It is within the budget exactly from 200 kb/s on. */
  lemma FirstMinimumFits(bitrateK: int)
    requires bitrateK > 0
    ensures FirstMinimum(bitrateK) == if bitrateK < 300 then 200 else 300
    ensures FirstMinimum(bitrateK) <= bitrateK <==> bitrateK >= 200
  {
  }

  /** A first OPEN at 150 kb/s. */
  lemma LowOpenIsRaised(now: int)
    ensures var o := NewABR(AgentLimits(30, FirstMinimum(150), 150), 1280, 720, 30, 150, now);
            && Held(o) && o.bitrateK == o.cfg.maxBitrateK == 150
            && OnSample(o, HEAVY_LOSS, Late(o)).bitrateK == 200
  {
    var cfg := AgentLimits(30, FirstMinimum(150), 150);
    var b := Abr(cfg, 30, 1280, 720, 150, false, None, 0, 0, 0);
    LadderOpenHolds(b, 1280, 720, now);
    OpenKeepsLimits(b, 1280, 720, now);
    hide Opened;
    BudgetBelowMinimum(NewABR(cfg, 1280, 720, 30, 150, now));
  }

  // ---- the frame-rate cap ----

  ghost predicate WithinFrameRate(a: Abr)
    requires RungOk(a)
  {
    forall ss :: OnSamples(a, ss).fps <= a.cfg.maxFPS
  }

  lemma ReactRate(a: Abr, s: Sample)
    requires RungOk(a)
    ensures React(a, s).fps == if Worse(a, s) then Max(a.cfg.minFPS, a.fps - 5)
                               else if Bad(a, s) then Max(a.cfg.minFPS, a.fps - 2)
                               else if Good(a, s) then Min(a.cfg.maxFPS, a.fps + 1)
                               else a.fps
  {
    hide Worse, Bad, Good, Quo, SizeForRung, RungTarget, EffLoss, Locked;
  }

  lemma SampleKeepsRate(a: Abr, s: Sample, now: int)
    requires RungOk(a) && a.fps <= a.cfg.maxFPS && a.cfg.minFPS <= a.cfg.maxFPS
    ensures OnSample(a, s, now).fps <= a.cfg.maxFPS
  {
    ReactRate(a.(wantKey := a.wantKey || s.wantKeyframe || s.stall, lastAdj := Some(now)), s);
    hide React, Worse, Bad, Good, Effective;
  }

  lemma {:induction false} RunKeepsRate(a: Abr, ss: seq<(Sample, int)>)
    requires RungOk(a) && a.fps <= a.cfg.maxFPS && a.cfg.minFPS <= a.cfg.maxFPS
    ensures OnSamples(a, ss).fps <= a.cfg.maxFPS
    decreases |ss|
  {
    if ss != [] {
      SampleContinues(a, ss[0].0, ss[0].1);
      SampleKeepsRate(a, ss[0].0, ss[0].1);
      hide OnSample;
      RunKeepsRate(OnSample(a, ss[0].0, ss[0].1), ss[1..]);
    }
  }

  /** The frame rate respects its cap over every run exactly when the cap is not below the
      minimum, which the agent leaves at 5 whatever cap it sets. */
  lemma RateIffAboveMinimum(a: Abr)
    requires RungOk(a) && a.fps <= a.cfg.maxFPS
    ensures WithinFrameRate(a) <==> a.cfg.minFPS <= a.cfg.maxFPS
  {
    if a.cfg.minFPS <= a.cfg.maxFPS {
      forall ss ensures OnSamples(a, ss).fps <= a.cfg.maxFPS {
        RunKeepsRate(a, ss);
      }
    } else {
      RateBelowMinimum(a);
      OneSample(a, HEAVY_LOSS, Late(a));
      hide OnSample;
      assert OnSamples(a, [(HEAVY_LOSS, Late(a))]).fps > a.cfg.maxFPS;
    }
  }

  /** Otherwise the first heavy loss raises the frame rate to the minimum. */
  lemma RateBelowMinimum(a: Abr)
    requires RungOk(a) && a.fps <= a.cfg.maxFPS < a.cfg.minFPS
    ensures OnSample(a, HEAVY_LOSS, Late(a)).fps == a.cfg.minFPS
  {
    LateSamples(a);
    ReactRate(a.(lastAdj := Some(Late(a))), HEAVY_LOSS);
    hide React, OnSample, Worse, Good, Bad;
  }

  /** An OPEN at 2 frames a second, as the agent caps every OPEN above 8192 pixels. */
  lemma SlowOpenIsRaised(now: int)
    ensures var o := NewABR(AgentLimits(2, 300, 4000), 1280, 720, 2, 4000, now);
            && Held(o) && o.fps == o.cfg.maxFPS == 2
            && OnSample(o, HEAVY_LOSS, Late(o)).fps == 5
  {
    var cfg := AgentLimits(2, 300, 4000);
    var b := Abr(cfg, 2, 1280, 720, 4000, false, None, 0, 0, 0);
    LadderOpenHolds(b, 1280, 720, now);
    OpenKeepsLimits(b, 1280, 720, now);
    hide Opened;
    RateBelowMinimum(NewABR(cfg, 1280, 720, 2, 4000, now));
  }

  // ---- where the bitrate settles ----

  /** Every sample of the run takes effect and calls for a cut. */
  predicate AllWorse(a: Abr, ss: seq<(Sample, int)>)
    requires RungOk(a)
    decreases |ss|
  {
    ss == []
    || (SampleContinues(a, ss[0].0, ss[0].1);
        && Effective(a, ss[0].0, ss[0].1) && Worse(a, ss[0].0)
        && AllWorse(OnSample(a, ss[0].0, ss[0].1), ss[1..]))
  }

  predicate AllGood(a: Abr, ss: seq<(Sample, int)>)
    requires RungOk(a)
    decreases |ss|
  {
    ss == []
    || (SampleContinues(a, ss[0].0, ss[0].1);
        && Effective(a, ss[0].0, ss[0].1) && Good(a, ss[0].0)
        && AllGood(OnSample(a, ss[0].0, ss[0].1), ss[1..]))
  }

  function Halved(b: nat, n: nat): nat {
    if n == 0 then b else Halved(b / 2, n - 1)
  }

  function Pow2(n: nat): nat {
    if n == 0 then 1 else 2 * Pow2(n - 1)
  }

  lemma {:induction false} HalvedIsMonotone(b: nat, c: nat, n: nat)
    requires b <= c
    ensures Halved(b, n) <= Halved(c, n)
  {
    if n > 0 {
      HalvedIsMonotone(b / 2, c / 2, n - 1);
    }
  }

  lemma {:induction false} HalvedVanishes(b: nat, n: nat)
    requires b < Pow2(n)
    ensures Halved(b, n) == 0
  {
    if n > 0 {
      HalvedVanishes(b / 2, n - 1);
    }
  }

  lemma WorseSampleCuts(a: Abr, s: Sample, now: int)
    requires Held(a) && a.cfg.minBitrateK >= 0 && a.bitrateK >= 0 && a.cutStreak >= 0
    requires Effective(a, s, now) && Worse(a, s)
    ensures var b := OnSample(a, s, now);
            && b.cutStreak == a.cutStreak + 1
            && a.cfg.minBitrateK <= b.bitrateK <= Max(a.cfg.minBitrateK, a.bitrateK * 6 / 10)
            && (a.cutStreak >= 2 ==> b.bitrateK <= Max(a.cfg.minBitrateK, a.bitrateK / 2))
            && (a.bitrateK > a.cfg.minBitrateK ==> b.bitrateK < a.bitrateK)
  {
    var b := a.(wantKey := a.wantKey || s.wantKeyframe || s.stall, lastAdj := Some(now));
    WorseContinues(b, s);
    CutContinues(b, s, if a.cutStreak + 1 >= 3 then 5 else 6, 5);
    assert OnSample(a, s, now) == Adjust(b, s);
    assert Worse(b, s);
    hide OnWorse, OnBad, OnGood, Worse, Bad, Good, Cut, Effective, OnSample;
  }

  /** After three bad windows in a row every further one halves the bitrate. */
  lemma {:induction false} StreakHalves(a: Abr, ss: seq<(Sample, int)>)
    requires Held(a) && 0 <= a.cfg.minBitrateK <= a.bitrateK && a.cutStreak >= 2 && AllWorse(a, ss)
    ensures a.cfg.minBitrateK <= OnSamples(a, ss).bitrateK <= Max(a.cfg.minBitrateK, Halved(a.bitrateK, |ss|))
    decreases |ss|
  {
    if ss != [] {
      var b := OnSample(a, ss[0].0, ss[0].1);
      WorseSampleCuts(a, ss[0].0, ss[0].1);
      HeldSample(a, ss[0].0, ss[0].1);
      SampleContinues(a, ss[0].0, ss[0].1);
      hide OnSample, Effective, Worse;
      StreakHalves(b, ss[1..]);
      HalvedIsMonotone(b.bitrateK, Max(a.cfg.minBitrateK, a.bitrateK / 2), |ss| - 1);
      HalvedShrinks(a.cfg.minBitrateK, |ss| - 1);
    }
  }

  lemma {:induction false} HalvedShrinks(b: nat, n: nat)
    ensures Halved(b, n) <= b
  {
    if n > 0 {
      HalvedShrinks(b / 2, n - 1);
    }
  }

  /** Two bad windows from any state already more than halve it, before the streak does. */
  lemma TwoWorseHalve(a: Abr, s: Sample, t: int, b: Abr, s': Sample, t': int)
    requires Held(a) && a.cfg.minBitrateK >= 0 && a.bitrateK >= 0 && a.cutStreak >= 0
    requires Effective(a, s, t) && Worse(a, s)
    requires b == OnSample(a, s, t) && RungOk(b) && Effective(b, s', t') && Worse(b, s')
    ensures var c := OnSample(b, s', t');
            && Held(c) && c.cfg == a.cfg && c.cutStreak >= 2
            && a.cfg.minBitrateK <= c.bitrateK <= Max(a.cfg.minBitrateK, a.bitrateK / 2)
  {
    WorseSampleCuts(a, s, t);
    HeldSample(a, s, t);
    SampleContinues(a, s, t);
    WorseSampleCuts(b, s', t');
    HeldSample(b, s', t');
    SampleContinues(b, s', t');
    hide OnSample, Effective, Worse;
  }

  /** A link that stays bad: each sample lowers the bitrate until it sits at the minimum, and
      n samples suffice once 2^(n-1) exceeds the starting bitrate. */
  lemma WorseReachesTheFloor(a: Abr, ss: seq<(Sample, int)>)
    requires Held(a) && a.cfg.minBitrateK >= 0 && a.bitrateK >= 0 && a.cutStreak >= 0 && AllWorse(a, ss)
    requires |ss| >= 2 && a.bitrateK < Pow2(|ss| - 1)
    ensures OnSamples(a, ss).bitrateK == a.cfg.minBitrateK
  {
    hide AllWorse, OnSamples, OnSample, Effective, Worse, Pow2, Halved, Max;
    WorseUnfolds(a, ss);
    var b := OnSample(a, ss[0].0, ss[0].1);
    var rest := ss[1..];
    WorseUnfolds(b, rest);
    var c := OnSample(b, rest[0].0, rest[0].1);
    TwoWorseHalve(a, ss[0].0, ss[0].1, b, rest[0].0, rest[0].1);
    StreakHalves(c, rest[1..]);
    FloorReached(a, c, OnSamples(c, rest[1..]), |ss| - 2);
  }

  lemma WorseUnfolds(a: Abr, ss: seq<(Sample, int)>)
    requires RungOk(a) && ss != [] && AllWorse(a, ss)
    ensures var b := OnSample(a, ss[0].0, ss[0].1);
            && Effective(a, ss[0].0, ss[0].1) && Worse(a, ss[0].0)
            && RungOk(b) && AllWorse(b, ss[1..]) && OnSamples(a, ss) == OnSamples(b, ss[1..])
  {
    SampleContinues(a, ss[0].0, ss[0].1);
    hide OnSample, Effective, Worse;
  }

  lemma FloorReached(a: Abr, c: Abr, d: Abr, n: nat)
    requires a.cfg.minBitrateK >= 0 && a.bitrateK >= 0 && c.cfg == a.cfg && a.bitrateK < Pow2(n + 1)
    requires a.cfg.minBitrateK <= c.bitrateK <= Max(a.cfg.minBitrateK, a.bitrateK / 2)
    requires a.cfg.minBitrateK <= d.bitrateK <= Max(c.cfg.minBitrateK, Halved(c.bitrateK, n))
    ensures d.bitrateK == a.cfg.minBitrateK
  {
    HalvedIsMonotone(c.bitrateK, Max(a.cfg.minBitrateK, a.bitrateK / 2), n);
    HalvedShrinks(a.cfg.minBitrateK, n);
    HalvedVanishes(a.bitrateK / 2, n);
  }

  lemma GoodSampleRaises(a: Abr, s: Sample, now: int)
    requires Held(a) && a.bitrateK >= 0 && Effective(a, s, now) && Good(a, s)
    ensures OnSample(a, s, now).bitrateK == Min(a.cfg.maxBitrateK, Quo(a.bitrateK * 105, 100) + 50)
    ensures OnSample(a, s, now).bitrateK >= Min(a.cfg.maxBitrateK, a.bitrateK + 50)
  {
    var b := a.(wantKey := a.wantKey || s.wantKeyframe || s.stall, lastAdj := Some(now));
    GoodContinues(b);
    assert !Worse(b, s) && !Bad(b, s) && Good(b, s);
    assert OnSample(a, s, now) == Adjust(b, s);
    hide OnWorse, OnBad, OnGood, Worse, Bad, Good, Effective, OnSample;
  }

  /** A link that stays good: n samples bring the bitrate to the OPEN budget once 50n covers
      the distance to it. */
  lemma {:induction false} GoodReachesTheBudget(a: Abr, ss: seq<(Sample, int)>)
    requires Held(a) && 0 <= a.bitrateK <= a.cfg.maxBitrateK && AllGood(a, ss)
    requires 50 * |ss| >= a.cfg.maxBitrateK - a.bitrateK
    ensures OnSamples(a, ss).bitrateK == a.cfg.maxBitrateK
    decreases |ss|
  {
    if ss != [] {
      var b := OnSample(a, ss[0].0, ss[0].1);
      GoodSampleRaises(a, ss[0].0, ss[0].1);
      HeldSample(a, ss[0].0, ss[0].1);
      SampleContinues(a, ss[0].0, ss[0].1);
      hide OnSample, Effective, Good;
      GoodReachesTheBudget(b, ss[1..]);
    }
  }

  /** The instants are at least gap apart and not before from. */
  predicate Spaced(ss: seq<(Sample, int)>, gap: int, from: int) {
    ss == [] || (ss[0].1 >= from && Spaced(ss[1..], gap, ss[0].1 + gap))
  }

  /** A client that keeps reporting a stall every 250 ms or slower drives such a run. */
  lemma {:induction false} StallsKeepCutting(a: Abr, ss: seq<(Sample, int)>, from: int)
    requires RungOk(a) && from >= a.holdUntil
    requires a.lastAdj.Some? ==> from >= a.lastAdj.value + 250 * MILLISECOND
    requires Spaced(ss, 250 * MILLISECOND, from) && forall p | p in ss :: p.0.stall
    ensures AllWorse(a, ss)
    decreases |ss|
  {
    if ss != [] {
      assert ss[0] in ss && ss[0].0.stall;
      SampleContinues(a, ss[0].0, ss[0].1);
      SampleStamps(a, ss[0].0, ss[0].1);
      assert Effective(a, ss[0].0, ss[0].1) && Worse(a, ss[0].0);
      hide OnSample, Effective, Worse;
      StallsKeepCutting(OnSample(a, ss[0].0, ss[0].1), ss[1..], ss[0].1 + 250 * MILLISECOND);
    }
  }

  /** Low loss, no stall, and a receive rate that is not judged. */
  predicate Clean(s: Sample) {
    s.lossPct < 1.0 && !s.stall && (s.recvKbps <= 0 || s.streamFPS < 5.0)
  }

  /** Low loss, no stall, and a receive rate that would do for the whole OPEN budget. */
  predicate Ample(s: Sample, cfg: Config) {
    s.lossPct < 1.0 && !s.stall && s.recvKbps >= Quo(cfg.maxBitrateK * 7, 10)
  }

  /** The bitrate is within the budget, and no rung can lift it out. */
  predicate Budgeted(a: Abr) {
    a.bitrateK <= a.cfg.maxBitrateK && (Locked(a.cfg) || a.cfg.minBitrateK <= a.cfg.maxBitrateK)
  }

  lemma CleanIsGood(a: Abr, s: Sample)
    requires Clean(s) || (Budgeted(a) && Ample(s, a.cfg))
    ensures Good(a, s) && !Worse(a, s) && !Bad(a, s)
  {
    if Budgeted(a) {
      assert Quo(a.bitrateK * 7, 10) <= Quo(a.cfg.maxBitrateK * 7, 10);
    }
  }

  lemma GoodStaysBudgeted(a: Abr)
    requires RungOk(a) && Budgeted(a)
    ensures Budgeted(OnGood(a))
  {
    hide Quo, SizeForRung, RungTarget;
  }

  lemma GoodSampleStaysBudgeted(a: Abr, s: Sample, now: int)
    requires RungOk(a) && Budgeted(a) && Good(a, s) && !Worse(a, s) && !Bad(a, s)
    ensures Budgeted(OnSample(a, s, now))
  {
    var b := a.(wantKey := a.wantKey || s.wantKeyframe || s.stall, lastAdj := Some(now));
    SampleContinues(a, s, now);
    GoodStaysBudgeted(b);
    assert React(b, s) == OnGood(b);
    hide OnGood, React, Worse, Bad, Good, Effective, Locked;
  }

  lemma {:induction false} CleanSamplesKeepRaising(a: Abr, ss: seq<(Sample, int)>, from: int)
    requires RungOk(a) && from >= a.holdUntil
    requires a.lastAdj.Some? ==> from >= a.lastAdj.value + 500 * MILLISECOND
    requires Spaced(ss, 500 * MILLISECOND, from)
    requires forall p | p in ss :: Clean(p.0) || (Budgeted(a) && Ample(p.0, a.cfg))
    ensures AllGood(a, ss)
    decreases |ss|
  {
    if ss != [] {
      assert ss[0] in ss;
      CleanIsGood(a, ss[0].0);
      if Budgeted(a) {
        GoodSampleStaysBudgeted(a, ss[0].0, ss[0].1);
      }
      SampleContinues(a, ss[0].0, ss[0].1);
      assert Effective(a, ss[0].0, ss[0].1);
      SampleStamps(a, ss[0].0, ss[0].1);
      hide OnSample, Effective, Good, Worse, Bad, Clean, Ample, Budgeted;
      CleanSamplesKeepRaising(OnSample(a, ss[0].0, ss[0].1), ss[1..], ss[0].1 + 500 * MILLISECOND);
    }
  }

  lemma CutStamps(a: Abr, s: Sample)
    requires RungOk(a)
    ensures React(a, s).lastAdj == a.lastAdj
  {
    hide Worse, Bad, Good, Locked, Quo, SizeForRung, RungTarget, EffLoss;
  }

  lemma SampleStamps(a: Abr, s: Sample, now: int)
    requires RungOk(a) && Effective(a, s, now)
    ensures OnSample(a, s, now).lastAdj == Some(now)
  {
    CutStamps(a.(wantKey := a.wantKey || s.wantKeyframe || s.stall, lastAdj := Some(now)), s);
    hide React;
  }

  // ---- one sample, by its numbers ----

  /** Fewer than seven tenths of the bitrate arrive although enough frames are drawn to need
      it: at least five a second, and three fifths of the frame rate. */
  predicate Starved(a: Abr, s: Sample) {
    && s.streamFPS >= 5.0 && 5.0 * s.streamFPS >= (3 * a.fps) as real
    && a.bitrateK > 800 && 0 < s.recvKbps && 10 * (s.recvKbps + 1) <= 7 * a.bitrateK
  }

  /** The bitrate cut to so many tenths, then to 85 % of what arrives, neither below the minimum. */
  function AfterCut(a: Abr, s: Sample, tenths: int): int {
    var cut := a.bitrateK * tenths / 10;
    var carried := if s.recvKbps > 0 then s.recvKbps * 85 / 100 else cut;
    Max(a.cfg.minBitrateK, Min(cut, carried))
  }

  lemma StarvedIsPressure(a: Abr, s: Sample)
    ensures BandwidthPressure(a, s) <==> Starved(a, s)
  {
  }

  lemma CutByNumbers(a: Abr, s: Sample, tenths: int, fpsStep: int)
    requires a.bitrateK >= 0 && 1 <= tenths <= 10
    ensures Cut(a, s, tenths, fpsStep) == a.(cutStreak := a.cutStreak + 1, bitrateK := AfterCut(a, s, tenths),
                                             fps := Max(a.cfg.minFPS, a.fps - fpsStep))
  {
    assert a.bitrateK * tenths >= 0;
  }

  /** Within five seconds of an OPEN, and within half a second of the last adjustment (a quarter
      under a stall or heavy loss), a sample only passes on the wish for a keyframe. */
  lemma EarlySampleWaits(a: Abr, s: Sample, now: int)
    requires RungOk(a)
    requires var gap := if s.stall || s.lossPct > 12.0 then 250_000_000 else 500_000_000;
             now < a.holdUntil || (a.lastAdj.Some? && now < a.lastAdj.value + gap)
    ensures OnSample(a, s, now) == a.(wantKey := a.wantKey || s.wantKeyframe || s.stall)
  {
  }

  predicate Heavy(a: Abr, s: Sample) {
    s.stall || s.lossPct > 12.0 || (Starved(a, s) && s.lossPct > 3.0)
  }

  predicate Moderate(a: Abr, s: Sample) {
    !Heavy(a, s) && (s.lossPct > 5.0 || Starved(a, s))
  }

  predicate Light(a: Abr, s: Sample) {
    !Heavy(a, s) && !Moderate(a, s) && s.lossPct < 1.0
  }

  function RaisedRate(a: Abr): int {
    Min(a.cfg.maxBitrateK, a.bitrateK * 105 / 100 + 50)
  }

  /** What a sample makes of the bitrate: loss over 12 % or a stall cuts to six tenths, from the
      third cut in a row to five; loss over 5 % or starvation to eight tenths; loss under 1 %
      raises; anything between leaves it. */
  function BitrateAfter(a: Abr, s: Sample): int {
    if Heavy(a, s) then AfterCut(a, s, if a.cutStreak >= 2 then 5 else 6)
    else if Moderate(a, s) then AfterCut(a, s, 8)
    else if Light(a, s) then RaisedRate(a)
    else a.bitrateK
  }

  /** And of frame rate and cut streak. */
  predicate RateByNumbers(a: Abr, s: Sample, b: Abr) {
    if Heavy(a, s) then b.fps == Max(a.cfg.minFPS, a.fps - 5) && b.cutStreak == a.cutStreak + 1
    else if Moderate(a, s) then b.fps == Max(a.cfg.minFPS, a.fps - 2) && b.cutStreak == a.cutStreak + 1
    else if Light(a, s) then b.fps == Min(a.cfg.maxFPS, a.fps + 1) && b.cutStreak == 0
    else b.fps == a.fps && b.cutStreak == (if a.cutStreak > 0 then a.cutStreak - 1 else a.cutStreak)
  }

  predicate ByNumbers(a: Abr, s: Sample, b: Abr) {
    b.bitrateK == BitrateAfter(a, s) && RateByNumbers(a, s, b)
  }

  lemma Classified(a: Abr, s: Sample)
    ensures Worse(a, s) <==> Heavy(a, s)
    ensures !Worse(a, s) && Bad(a, s) <==> Moderate(a, s)
    ensures !Worse(a, s) && !Bad(a, s) && Good(a, s) <==> Light(a, s)
  {
    StarvedIsPressure(a, s);
    hide BandwidthPressure, Starved;
  }

  lemma Cuts(a: Abr, s: Sample)
    requires a.bitrateK >= 0
    ensures var tenths := if a.cutStreak >= 2 then 5 else 6;
            Cut(a, s, if a.cutStreak + 1 >= 3 then 5 else 6, 5)
              == a.(cutStreak := a.cutStreak + 1, bitrateK := AfterCut(a, s, tenths), fps := Max(a.cfg.minFPS, a.fps - 5))
    ensures Cut(a, s, 8, 2)
              == a.(cutStreak := a.cutStreak + 1, bitrateK := AfterCut(a, s, 8), fps := Max(a.cfg.minFPS, a.fps - 2))
  {
    hide Cut, AfterCut;
    CutByNumbers(a, s, if a.cutStreak >= 2 then 5 else 6, 5);
    CutByNumbers(a, s, 8, 2);
  }

  lemma ReactByNumbers(a: Abr, s: Sample)
    requires RungOk(a) && Locked(a.cfg) && a.bitrateK >= 0
    ensures var b := React(a, s);
            && ByNumbers(a, s, b) && b.lastAdj == a.lastAdj && b.wantKey == (Heavy(a, s) || a.wantKey) && b.cfg == a.cfg
  {
    Classified(a, s);
    WorseContinues(a, s);
    BadContinues(a, s);
    GoodContinues(a);
    Cuts(a, s);
    hide OnWorse, OnBad, OnGood, Worse, Bad, Good, Cut, Heavy, Moderate, Light, AfterCut, Max, Continues, Locked;
  }

  /** So does any sample after the hold and the gap, for every session an OPEN of the agent
      leaves. */
  lemma SampleByNumbers(a: Abr, s: Sample, now: int)
    requires Held(a) && a.bitrateK >= 0 && now >= a.holdUntil
    requires a.lastAdj.Some? ==>
               now >= a.lastAdj.value + (if s.stall || s.lossPct > 12.0 then 250_000_000 else 500_000_000)
    ensures var b := OnSample(a, s, now);
            ByNumbers(a, s, b) && b.lastAdj == Some(now) && b.wantKey == (Heavy(a, s) || a.wantKey || s.wantKeyframe)
  {
    var b := a.(wantKey := a.wantKey || s.wantKeyframe || s.stall, lastAdj := Some(now));
    ReactByNumbers(b, s);
    assert Effective(a, s, now);
    assert Heavy(a, s) == Heavy(b, s);
    hide React, Starved, Max, Min, Even, Effective;
  }

  // ---- pixels that an OPEN did not lock ----

  /** The rung a sample asks for: one down under heavy loss, or under a second moderate one in a
      row that loses over 8 % or jitters over 70 ms; one up when the raised bitrate is over
      twice the minimum. */
  function RungAfter(a: Abr, s: Sample): int {
    var to := if Heavy(a, s) then a.rung + 1
              else if Moderate(a, s) && a.cutStreak >= 1 && (s.lossPct > 8.0 || s.jitterMs > 70) then a.rung + 1
              else if Light(a, s) && RaisedRate(a) > 2 * a.cfg.minBitrateK then a.rung - 1
              else a.rung;
    if 0 <= to < |a.cfg.ladder| then to else a.rung
  }

  /** The budget times the square of the scale relative to the top one, rounded. */
  function ShareOfBudget(budget: int, relative: real): int {
    (budget as real * relative * relative + 0.5).Floor
  }

  function BudgetOfRung(a: Abr, rung: int): int
    requires 0 <= rung < |a.cfg.ladder| && a.cfg.ladder[0] > 0.0
  {
    Max(a.cfg.minBitrateK, Min(a.cfg.maxBitrateK, ShareOfBudget(a.cfg.maxBitrateK, a.cfg.ladder[rung] / a.cfg.ladder[0])))
  }

  lemma RungByNumbers(a: Abr, rung: int)
    requires 0 <= rung < |a.cfg.ladder|
    ensures var b := AtRung(a, rung);
            && b.rung == rung && (b.width, b.height) == SizeForRung(a, rung) && b.wantKey
            && b.bitrateK == (if a.cfg.maxBitrateK > 0 && a.cfg.ladder[0] > 0.0 then BudgetOfRung(a, rung) else a.bitrateK)
            && (b.cfg, b.fps, b.cutStreak, b.lastAdj) == (a.cfg, a.fps, a.cutStreak, a.lastAdj)
  {
    if a.cfg.maxBitrateK > 0 && a.cfg.ladder[0] > 0.0 {
      RelativeShare(a.cfg.maxBitrateK, a.cfg.ladder[rung] / a.cfg.ladder[0]);
      assert RungTarget(a.cfg, rung) == ShareOfBudget(a.cfg.maxBitrateK, a.cfg.ladder[rung] / a.cfg.ladder[0]) by {
        hide ShareOfBudget, Trunc;
      }
    }
    hide SizeForRung, RungTarget, ShareOfBudget;
  }

  lemma RelativeShare(budget: int, relative: real)
    requires budget > 0
    ensures Trunc(budget as real * relative * relative + 0.5) == ShareOfBudget(budget, relative)
  {
    SharesOfBudget(budget as real, relative);
  }

  lemma SharesOfBudget(budget: real, share: real)
    requires budget >= 0.0
    ensures budget * share * share >= 0.0
  {
    assert share * share >= 0.0;
    Product(budget, share * share);
    assert budget * share * share == budget * (share * share);
  }

  /** The picture at the rung asked for, at its size and with its share of the budget, with a
      keyframe wanted; without a move picture and bitrate as they would be. */
  predicate OnLadder(a: Abr, s: Sample, rung: int, b: Abr)
    requires 0 <= rung < |a.cfg.ladder|
  {
    && RateByNumbers(a, s, b) && b.rung == rung
    && (rung == a.rung ==> (b.width, b.height) == (a.width, a.height) && b.bitrateK == BitrateAfter(a, s))
    && (rung != a.rung ==>
          && (b.width, b.height) == SizeForRung(a, rung) && b.wantKey
          && b.bitrateK == (if a.cfg.maxBitrateK > 0 && a.cfg.ladder[0] > 0.0 then BudgetOfRung(a, rung)
                            else BitrateAfter(a, s)))
  }

  lemma SameLadder(a: Abr, b: Abr, rung: int)
    requires b.cfg == a.cfg && b.width == a.width && b.height == a.height && 0 <= rung < |a.cfg.ladder|
    ensures SizeForRung(b, rung) == SizeForRung(a, rung)
    ensures a.cfg.ladder[0] > 0.0 ==> BudgetOfRung(b, rung) == BudgetOfRung(a, rung)
  {
    hide Side;
  }

  lemma HeavyOnLadder(a: Abr, s: Sample)
    requires RungOk(a) && !Locked(a.cfg) && |a.cfg.ladder| > 0 && a.bitrateK >= 0 && Heavy(a, s)
    ensures OnLadder(a, s, RungAfter(a, s), OnWorse(a, s))
  {
    Cuts(a, s);
    var c := Cut(a, s, if a.cutStreak + 1 >= 3 then 5 else 6, 5);
    hide Cut, AtRung, Starved, AfterCut, Max, Locked, SizeForRung, BudgetOfRung;
    if a.rung + 1 < |a.cfg.ladder| {
      RungByNumbers(c, a.rung + 1);
      SameLadder(a, c, a.rung + 1);
    }
  }

  lemma ModerateOnLadder(a: Abr, s: Sample)
    requires RungOk(a) && !Locked(a.cfg) && |a.cfg.ladder| > 0 && a.bitrateK >= 0 && Moderate(a, s)
    ensures OnLadder(a, s, RungAfter(a, s), OnBad(a, s))
  {
    Cuts(a, s);
    var c := Cut(a, s, 8, 2);
    assert EffLoss(s) == s.lossPct;
    hide Cut, AtRung, Starved, AfterCut, Max, Locked, SizeForRung, BudgetOfRung;
    if a.rung + 1 < |a.cfg.ladder| {
      RungByNumbers(c, a.rung + 1);
      SameLadder(a, c, a.rung + 1);
    }
  }

  lemma LightOnLadder(a: Abr, s: Sample)
    requires RungOk(a) && !Locked(a.cfg) && |a.cfg.ladder| > 0 && a.bitrateK >= 0 && Light(a, s)
    ensures OnLadder(a, s, RungAfter(a, s), OnGood(a))
  {
    hide AtRung, Starved, Max, Locked, SizeForRung, BudgetOfRung;
    if a.rung > 0 {
      RungByNumbers(Raised(a), a.rung - 1);
      SameLadder(a, Raised(a), a.rung - 1);
    }
  }

  /** What a sample does on a ladder without locked pixels. */
  lemma LadderByNumbers(a: Abr, s: Sample)
    requires RungOk(a) && !Locked(a.cfg) && |a.cfg.ladder| > 0 && a.bitrateK >= 0
    ensures OnLadder(a, s, RungAfter(a, s), React(a, s))
  {
    Classified(a, s);
    if Heavy(a, s) {
      HeavyOnLadder(a, s);
    } else if Moderate(a, s) {
      ModerateOnLadder(a, s);
    } else if Light(a, s) {
      LightOnLadder(a, s);
    }
    hide OnWorse, OnBad, OnGood, Worse, Bad, Good, Heavy, Light, AfterCut, Max, SizeForRung, BudgetOfRung, Starved;
  }

  function Kept(v: int, lo: int, hi: int): int {
    if v < lo then lo else if hi > 0 && v > hi then hi else v
  }

  /** Limits of pixels in order, the height's floor following from the width at 16:9 if it is
      not set. */
  predicate Ordered(c: Config) {
    && 0 <= c.minWidth <= c.maxWidth && 0 < c.maxWidth
    && (c.maxHeight > 0 ==> LowestHeight(c) <= c.maxHeight)
  }

  function LowestHeight(c: Config): int {
    if c.minHeight > 0 then c.minHeight else c.minWidth * 9 / 16
  }

  /** Without a ladder the picture shrinks to three quarters, or to seven eighths, or grows by 40
      by 24 pixels, within floor and cap, under the conditions for a rung down or up. */
  function PictureAfter(a: Abr, s: Sample): (int, int) {
    var c := a.cfg;
    if Heavy(a, s) then
      (Kept(a.width * 3 / 4, c.minWidth, c.maxWidth), Kept(a.height * 3 / 4, LowestHeight(c), c.maxHeight))
    else if Moderate(a, s) && a.cutStreak >= 1 && (s.lossPct > 8.0 || s.jitterMs > 70) then
      (Kept(a.width * 7 / 8, c.minWidth, c.maxWidth), Kept(a.height * 7 / 8, LowestHeight(c), c.maxHeight))
    else if Light(a, s) && RaisedRate(a) > 2 * c.minBitrateK && a.width < c.maxWidth then
      (Min(c.maxWidth, a.width + 40), Min(if c.maxHeight > 0 then c.maxHeight else c.maxWidth * 9 / 16, a.height + 24))
    else (a.width, a.height)
  }

  lemma CutWithoutLadder(a: Abr, s: Sample)
    requires RungOk(a) && !Locked(a.cfg) && a.cfg.ladder == [] && a.bitrateK >= 0 && a.width >= 0 && a.height >= 0
    requires Ordered(a.cfg) && (Heavy(a, s) || Moderate(a, s))
    ensures var b := if Heavy(a, s) then OnWorse(a, s) else OnBad(a, s);
            ByNumbers(a, s, b) && (b.width, b.height) == PictureAfter(a, s)
  {
    Cuts(a, s);
    assert !s.stall ==> EffLoss(s) == s.lossPct;
    ShrinkByNumbers(Cut(a, s, if a.cutStreak + 1 >= 3 then 5 else 6, 5), 3, 4);
    ShrinkByNumbers(Cut(a, s, 8, 2), 7, 8);
    hide Cut, Shrink, Starved, AfterCut, Locked, Max, EffLoss, Kept, LowestHeight, Ordered;
  }

  lemma NoLadderByNumbers(a: Abr, s: Sample)
    requires RungOk(a) && !Locked(a.cfg) && a.cfg.ladder == [] && a.bitrateK >= 0 && a.width >= 0 && a.height >= 0
    requires Ordered(a.cfg)
    ensures ByNumbers(a, s, React(a, s)) && (React(a, s).width, React(a, s).height) == PictureAfter(a, s)
  {
    Classified(a, s);
    if Heavy(a, s) || Moderate(a, s) {
      CutWithoutLadder(a, s);
    }
    hide OnWorse, OnBad, Worse, Bad, Good, Starved, AfterCut, Max, Kept, LowestHeight, Locked;
  }

  lemma ShrinkByNumbers(a: Abr, num: nat, den: nat)
    requires den > 0 && a.width >= 0 && a.height >= 0 && Ordered(a.cfg)
    ensures var c := a.cfg;
            Shrink(a, num, den) ==
              a.(width := Kept(a.width * num / den, c.minWidth, c.maxWidth),
                 height := Kept(a.height * num / den, LowestHeight(c), c.maxHeight))
  {
    assert a.width * num >= 0 && a.height * num >= 0;
  }

  // ---- the size an OPEN gives ----

  lemma Product(x: real, y: real)
    requires x >= 0.0 && y >= 0.0
    ensures x * y >= 0.0
  {
  }

  lemma ScaleRounds(side: int, scale: real)
    requires side >= 0 && scale >= 0.0
    ensures side as real * scale - 0.5 < Scale(side, scale) as real <= side as real * scale + 0.5
  {
    Product(side as real, scale);
  }

  /** A side at a scale: side (the native one, or without one the cap, or else the current one)
      scaled, rounded and made even, if that lies between the floor and the cap, else the one
      that it misses. */
  lemma SideIsScaled(native: int, lo: int, cap: int, current: int, scale: real, side: int)
    requires side == (if native > 0 then native else if cap > 0 then cap else current) && current > 0 && scale >= 0.0
    ensures var v, x := Side(native, lo, cap, current, scale), Scale(side, scale);
            && v % 2 == 0
            && side as real * scale - 0.5 < x as real <= side as real * scale + 0.5
            && (lo <= x && (cap <= 0 || x <= cap) ==> x - 1 <= v <= x)
            && (cap > 0 && x > cap ==> v == Even(cap))
            && (lo > 0 && x < lo && (cap <= 0 || lo <= cap) ==> v == Even(lo))
  {
    ScaleRounds(side, scale);
    hide Scale;
    assert side == Reference(native, cap, current);
  }

  lemma FirstOf(s: seq<real>) returns (t: real)
    requires s != []
    ensures t in s
  {
    t := s[0];
  }

  lemma TrimIsTheFilter(cfg: Config, ref: int, s: real)
    requires |cfg.ladder| > 0 && cfg.maxWidth > 0 && cfg.maxHeight > 0
    requires ref == if cfg.nativeWidth > 0 then cfg.nativeWidth else cfg.maxWidth
    ensures s in Trimmed(cfg).ladder <==>
              && s in cfg.ladder
              && (Fits(s, ref, cfg.maxWidth)
                  || (s == cfg.ladder[|cfg.ladder| - 1] && forall t | t in cfg.ladder :: !Fits(t, ref, cfg.maxWidth)))
  {
    FittingIsTheFilter(cfg.ladder, ref, cfg.maxWidth);
    hide Fits, Fitting;
    var kept := Fitting(cfg.ladder, ref, cfg.maxWidth);
    var last := cfg.ladder[|cfg.ladder| - 1];
    assert Trimmed(cfg).ladder == if kept == [] then [last] else kept;
    hide Trimmed;
    if kept == [] {
      forall t | t in cfg.ladder ensures !Fits(t, ref, cfg.maxWidth) {
        assert t !in kept;
      }
    } else {
      var t := FirstOf(kept);
      assert t in cfg.ladder && Fits(t, ref, cfg.maxWidth);
    }
  }

  /** Of a ladder the trim keeps the rungs whose width, rounded, exceeds the cap by at most two
      pixels; if there is none it keeps the last rung. */
  lemma TrimByNumbers(cfg: Config, s: real)
    requires |cfg.ladder| > 0 && cfg.maxWidth > 0 && cfg.maxHeight > 0 && forall t | t in cfg.ladder :: t >= 0.0
    ensures var width := (if cfg.nativeWidth > 0 then cfg.nativeWidth else cfg.maxWidth) as real;
            s in Trimmed(cfg).ladder <==>
              && s in cfg.ladder
              && (|| width * s + 0.5 < cfg.maxWidth as real + 3.0
                  || (s == cfg.ladder[|cfg.ladder| - 1]
                      && forall t | t in cfg.ladder :: width * t + 0.5 >= cfg.maxWidth as real + 3.0))
  {
    var ref := if cfg.nativeWidth > 0 then cfg.nativeWidth else cfg.maxWidth;
    hide Fits, Trimmed;
    TrimIsTheFilter(cfg, ref, s);
    forall t | t in cfg.ladder ensures Fits(t, ref, cfg.maxWidth) <==> ref as real * t + 0.5 < cfg.maxWidth as real + 3.0 {
      FitsByNumbers(t, ref, cfg.maxWidth);
    }
  }

  lemma FitsByNumbers(t: real, ref: int, cap: int)
    requires t >= 0.0 && ref > 0
    ensures Fits(t, ref, cap) <==> ref as real * t + 0.5 < cap as real + 3.0
  {
    Product(ref as real, t);
  }

  /** Without caps it keeps the ladder. */
  lemma NoCapsNoTrim(cfg: Config)
    requires cfg.maxWidth <= 0 || cfg.maxHeight <= 0
    ensures Trimmed(cfg) == cfg
  {
  }

  function Gap(x: int, y: int): int {
    if x < y then y - x else x - y
  }

  /** How far the size of a rung is from that asked for. */
  function Miss(a: Abr, rung: int, width: int, height: int): int {
    Gap(SizeForRung(a, rung).0, width) + Gap(SizeForRung(a, rung).1, height)
  }

  /** An OPEN takes, of the rungs left by the trim, the first of those nearest to the size asked
      for, encodes at the size of that rung, holds it for five seconds and leaves bitrate and
      frame rate alone. */
  lemma OpenTakesTheNearest(a: Abr, width: int, height: int, now: int)
    requires |a.cfg.ladder| > 0
    requires var b := a.(cfg := Trimmed(a.cfg));
             forall i | 0 <= i < |b.cfg.ladder| :: Miss(b, i, width, height) < 0x7FFF_FFFF_FFFF_FFFF
    ensures var b, o := a.(cfg := Trimmed(a.cfg)), Opened(a, width, height, now);
            && o.cfg.ladder == b.cfg.ladder && 0 <= o.rung < |b.cfg.ladder|
            && (o.width, o.height) == SizeForRung(b, o.rung)
            && (forall i | 0 <= i < |b.cfg.ladder| :: Miss(b, o.rung, width, height) <= Miss(b, i, width, height))
            && (forall i | 0 <= i < o.rung :: Miss(b, o.rung, width, height) < Miss(b, i, width, height))
            && o.holdUntil == now + 5_000_000_000 && o.bitrateK == a.bitrateK && o.fps == a.fps
  {
    var b := a.(cfg := Trimmed(a.cfg));
    TrimKeepsARung(a.cfg);
    MissIsDistance(b, width, height);
    NearestIsNearest(b, |b.cfg.ladder|, width, height);
    hide Trimmed, NearestBelow, Side, Distance, Miss;
  }

  lemma MissIsDistance(a: Abr, width: int, height: int)
    ensures forall i :: Miss(a, i, width, height) == Distance(a, i, width, height)
  {
    hide SizeForRung;
  }

  /** What a reopen makes of the limits: what is asked for, where it asks, and the configuration
      passed in elsewhere; bitrate and frame rate start there, a keyframe is wanted and earlier
      cuts are forgotten; the picture is no larger than the size asked for. */
  lemma ReopenByNumbers(a: Abr, width: int, height: int, fps: int, bitrateK: int, cfg: Config, now: int)
    requires |cfg.ladder| > 0
    ensures var o := ApplyOpenTarget(a, width, height, fps, bitrateK, cfg, now);
            && (o.bitrateK, o.cfg.maxBitrateK) == (if bitrateK > 0 then (bitrateK, bitrateK) else (a.bitrateK, cfg.maxBitrateK))
            && (o.fps, o.cfg.maxFPS) == (if fps > 0 then (fps, fps) else (a.fps, cfg.maxFPS))
            && (o.cfg.minBitrateK, o.cfg.minFPS) == (cfg.minBitrateK, cfg.minFPS)
            && o.wantKey && o.cutStreak == 0 && o.lastAdj == None
            && (width > 0 || cfg.maxWidth > 0 ==> o.width <= if width > 0 then width else cfg.maxWidth)
            && (height > 0 || cfg.maxHeight > 0 ==> o.height <= if height > 0 then height else cfg.maxHeight)
  {
    var b := a.(cfg := Capped(cfg, width, height, fps, bitrateK),
                bitrateK := if bitrateK > 0 then bitrateK else a.bitrateK,
                fps := if fps > 0 then fps else a.fps);
    OpenKeepsLimits(b, width, height, now);
    OpenIsCapped(b, width, height, now);
    hide Opened;
  }

  lemma OpenIsCapped(a: Abr, width: int, height: int, now: int)
    requires |a.cfg.ladder| > 0
    ensures var o := Opened(a, width, height, now);
            && (a.cfg.maxWidth > 0 ==> o.width <= a.cfg.maxWidth) && (a.cfg.maxHeight > 0 ==> o.height <= a.cfg.maxHeight)
  {
    TrimKeepsARung(a.cfg);
    hide Trimmed, NearestBelow, Scale, Reference;
  }

  // ---- the controller object ----

  class Controller {
    var cfg: Config
    var fps: int
    var width: int
    var height: int
    var bitrateK: int
    var wantKey: bool
    var lastAdj: Option<int>
    var cutStreak: int
    var rung: int
    var holdUntil: int

    function State(): Abr
      reads this
    {
      Abr(cfg, fps, width, height, bitrateK, wantKey, lastAdj, cutStreak, rung, holdUntil)
    }

    constructor (cfg: Config, width: int, height: int, fps: int, bitrateK: int, now: int)
      ensures State() == NewABR(cfg, width, height, fps, bitrateK, now) && RungOk(State())
      ensures this.fps == (if fps > 0 then fps else 15) && this.bitrateK == (if bitrateK > 0 then bitrateK else 2500)
      ensures !wantKey && lastAdj == None && cutStreak == 0
    {
      this.cfg, this.width, this.height := cfg, width, height;
      this.fps := if fps <= 0 then 15 else fps;
      this.bitrateK := if bitrateK <= 0 then 2500 else bitrateK;
      this.wantKey, this.lastAdj, this.cutStreak, this.rung, this.holdUntil := false, None, 0, 0, 0;
      new;
      Open(width, height, now);
    }

    method ApplyTarget(width: int, height: int, fps: int, bitrateK: int, cfg: Config, now: int)
      modifies this
      ensures State() == ApplyOpenTarget(old(State()), width, height, fps, bitrateK, cfg, now) && RungOk(State())
    {
      hide Capped, Opened;
      this.cfg := Capped(cfg, width, height, fps, bitrateK);
      if bitrateK > 0 {
        this.bitrateK := bitrateK;
      }
      if fps > 0 {
        this.fps := fps;
      }
      ghost var target := State();
      Open(width, height, now);
      assert State() == Opened(target, width, height, now);
      wantKey, cutStreak, lastAdj := true, 0, None;
    }

    /** What both ways of opening share. */
    method Open(width: int, height: int, now: int)
      modifies this
      ensures State() == Opened(old(State()), width, height, now) && RungOk(State())
    {
      OpenIsEven(State(), width, height, now);
      var kept := TrimLadder(cfg);
      cfg := kept;
      rung := Nearest(width, height);
      hide Trimmed, NearestBelow, SizeForRung;
      if |cfg.ladder| > 0 {
        var (w, h) := SizeForRung(State(), rung);
        this.width, this.height := w, h;
      } else {
        this.width, this.height := width, height;
      }
      this.width, this.height := Even(this.width), Even(this.height);
      LockOpenPixels();
      hide LockPixels;
      holdUntil := now + OPEN_HOLD;
    }

    method LockOpenPixels()
      modifies this`cfg
      ensures State() == LockPixels(old(State()))
    {
      if width > 0 { cfg := cfg.(minWidth := width, maxWidth := width); }
      if height > 0 { cfg := cfg.(minHeight := height, maxHeight := height); }
    }

    method Nearest(width: int, height: int) returns (best: int)
      ensures best == NearestRung(State(), width, height)
      ensures 0 <= best && (|cfg.ladder| > 0 ==> best < |cfg.ladder|)
    {
      best := 0;
      var bestDist := MAX_INT;
      for i := 0 to |cfg.ladder|
        invariant (best, bestDist) == NearestBelow(State(), i, width, height)
        invariant 0 <= best && (i > 0 ==> best < i)
      {
        var d := Distance(State(), i, width, height);
        if d < bestDist {
          best, bestDist := i, d;
        }
      }
    }

    method StatsSample(s: Sample, now: int)
      requires RungOk(State())
      modifies this
      ensures State() == OnSample(old(State()), s, now)
    {
      if s.wantKeyframe || s.stall {
        wantKey := true;
      }
      if now < holdUntil || (lastAdj.Some? && now - lastAdj.value < MinGap(s)) {
        return;
      }
      lastAdj := Some(now);
      var resLocked := Locked(cfg);
      ReactTo(s);
      hide React, MinGap;
      if resLocked {
        width, height := cfg.maxWidth, cfg.maxHeight;
      }
      width, height := Even(width), Even(height);
    }

    /** The four outcomes of a sample. */
    method ReactTo(s: Sample)
      requires RungOk(State())
      modifies this
      ensures State() == React(old(State()), s) && cfg == old(cfg)
    {
      ReactContinues(State(), s);
      if Worse(State(), s) {
        TakeCut(s, if cutStreak + 1 >= 3 then 5 else 6, 5);
        MoveDown(3, 4);
        wantKey := true;
      } else if Bad(State(), s) {
        TakeCut(s, 8, 2);
        hide Cut, EffLoss, StepDown, Shrink;
        if cutStreak >= 2 && (EffLoss(s) > 8.0 || s.jitterMs > 70) {
          MoveDown(7, 8);
        }
      } else if Good(State(), s) {
        MoveUp();
      } else if cutStreak > 0 {
        cutStreak := cutStreak - 1;
      }
    }

    method TakeCut(s: Sample, factor: int, fpsStep: int)
      modifies this
      ensures State() == Cut(old(State()), s, factor, fpsStep) && cfg == old(cfg) && rung == old(rung)
    {
      cutStreak := cutStreak + 1;
      bitrateK := Max(cfg.minBitrateK, Quo(bitrateK * factor, 10));
      CapBitrate(s.recvKbps);
      fps := Max(cfg.minFPS, fps - fpsStep);
    }

    method CapBitrate(recvKbps: int)
      modifies this`bitrateK
      ensures State() == CapToReceive(old(State()), recvKbps)
    {
      if recvKbps <= 0 {
        return;
      }
      var target := Quo(recvKbps * 85, 100);
      if target < cfg.minBitrateK {
        target := cfg.minBitrateK;
      }
      if bitrateK > target {
        bitrateK := target;
      }
    }

    /** One rung down, or a fractional shrink without a ladder, unless the pixels are locked. */
    method MoveDown(num: int, den: int)
      requires RungOk(State()) && den > 0
      modifies this
      ensures var a := old(State());
              State() == if Locked(a.cfg) then a else if |a.cfg.ladder| > 0 then StepDown(a) else Shrink(a, num, den)
    {
      if Locked(cfg) {
        return;
      }
      if |cfg.ladder| > 0 {
        if rung + 1 < |cfg.ladder| {
          GoToRung(rung + 1);
        }
      } else {
        ShrinkRes(num, den);
      }
    }

    method GoToRung(to: int)
      requires 0 <= to < |cfg.ladder|
      modifies this
      ensures State() == AtRung(old(State()), to)
    {
      hide SizeForRung, RungTarget;
      var (w, h) := SizeForRung(State(), to);
      rung, width, height := to, w, h;
      if cfg.maxBitrateK > 0 && cfg.ladder[0] > 0.0 {
        bitrateK := Max(cfg.minBitrateK, Min(cfg.maxBitrateK, RungTarget(cfg, rung)));
      }
      wantKey := true;
    }

    method ShrinkRes(num: int, den: int)
      requires den > 0
      modifies this
      ensures State() == Shrink(old(State()), num, den)
    {
      hide Quo;
      var minW := cfg.minWidth;
      if cfg.maxWidth > 0 && minW > cfg.maxWidth {
        minW := cfg.maxWidth;
      }
      width := Max(minW, Quo(width * num, den));
      if cfg.maxWidth > 0 {
        width := Min(cfg.maxWidth, width);
      }
      var minH := cfg.minHeight;
      if minH <= 0 {
        minH := Quo(minW * 9, 16);
      }
      if cfg.maxHeight > 0 && minH > cfg.maxHeight {
        minH := cfg.maxHeight;
      }
      height := Max(minH, Quo(height * num, den));
      if cfg.maxHeight > 0 {
        height := Min(cfg.maxHeight, height);
      }
    }

    method MoveUp()
      requires RungOk(State())
      modifies this
      ensures State() == OnGood(old(State()))
    {
      hide Quo, AtRung;
      cutStreak := 0;
      bitrateK := Min(cfg.maxBitrateK, Quo(bitrateK * 105, 100) + 50);
      fps := Min(cfg.maxFPS, fps + 1);
      var useLadder := !Locked(cfg) && |cfg.ladder| > 0;
      if useLadder && bitrateK > cfg.minBitrateK * 2 {
        if rung > 0 {
          GoToRung(rung - 1);
        }
      } else if !Locked(cfg) && !useLadder && width < cfg.maxWidth && bitrateK > cfg.minBitrateK * 2 {
        width := Min(cfg.maxWidth, width + 40);
        var maxH := cfg.maxHeight;
        if maxH <= 0 {
          maxH := Quo(cfg.maxWidth * 9, 16);
        }
        height := Min(maxH, height + 24);
      }
    }
  }

  /** trimLadderToOpen on a configuration. */
  method TrimLadder(cfg: Config) returns (c: Config)
    ensures c == Trimmed(cfg)
  {
    c := cfg;
    if |cfg.ladder| == 0 || cfg.maxWidth <= 0 || cfg.maxHeight <= 0 {
      return;
    }
    var refW := cfg.nativeWidth;
    if refW <= 0 {
      refW := cfg.maxWidth;
    }
    var kept: seq<real> := [];
    for i := 0 to |cfg.ladder|
      invariant kept == Fitting(cfg.ladder[..i], refW, cfg.maxWidth)
    {
      assert cfg.ladder[..i + 1][..i] == cfg.ladder[..i];
      if Fits(cfg.ladder[i], refW, cfg.maxWidth) {
        kept := kept + [cfg.ladder[i]];
      }
    }
    assert cfg.ladder[..|cfg.ladder|] == cfg.ladder;
    if |kept| == 0 {
      kept := [cfg.ladder[|cfg.ladder| - 1]];
    }
    c := c.(ladder := kept);
  }
}
