/**
  The piecewise-linear vibration composer: which composites it accepts, the segments it
  emits for them, and what those segments play.
 */
module Pwle {
  datatype Primitive =
    | Active(duration: int, startAmplitude: real, startFrequency: real, endAmplitude: real, endFrequency: real)
    | Braking(braking: int, duration: int)

  datatype Segment =
    | Ramp(duration: int, amplitude: real, frequency: real)
    | Brake(duration: int, braking: int)

  const SIZE_MAX := 127
  const DURATION_MAX := 16383
  const LEVEL_MIN := 0.0
  const LEVEL_MAX := 0.98256
  const FREQUENCY_MIN := 140.0
  const FREQUENCY_MAX := 160.0
  const CLAB := 1
  const SENTINEL := -1.0

  predicate Accepts(p: Primitive) {
    match p
    case Active(duration, a0, f0, a1, f1) =>
      && 0 <= duration <= DURATION_MAX
      && LEVEL_MIN <= a0 <= LEVEL_MAX && LEVEL_MIN <= a1 <= LEVEL_MAX
      && FREQUENCY_MIN <= f0 <= FREQUENCY_MAX && FREQUENCY_MIN <= f1 <= FREQUENCY_MAX
    case Braking(braking, duration) =>
      // Neither field has a lower bound.
      braking <= CLAB && duration <= DURATION_MAX
  }

  predicate Valid(c: seq<Primitive>) {
    0 < |c| <= SIZE_MAX && forall p <- c :: Accepts(p)
  }

  /** The accepted composites, in numbers. */
  lemma {:induction false} ValidIs(c: seq<Primitive>)
    ensures Valid(c) <==>
            && 1 <= |c| <= 127
            && forall i | 0 <= i < |c| ::
                 match c[i]
                 case Active(duration, a0, f0, a1, f1) =>
                   && 0 <= duration <= 16383
                   && 0.0 <= a0 <= 0.98256 && 0.0 <= a1 <= 0.98256
                   && 140.0 <= f0 <= 160.0 && 140.0 <= f1 <= 160.0
                 case Braking(braking, duration) => braking <= 1 && duration <= 16383
  {
    assert forall i | 0 <= i < |c| :: c[i] in c;
  }

  // ----- Emission -----

  /** The remembered end values before element i. */
  function Remembered(c: seq<Primitive>, i: nat): (real, real)
    requires i <= |c|
  {
    if i == 0 || c[i - 1].Braking? then (SENTINEL, SENTINEL)
    else (c[i - 1].endAmplitude, c[i - 1].endFrequency)
  }

  function Elements(p: Primitive, skipStart: bool): seq<Segment> {
    match p
    case Active(duration, a0, f0, a1, f1) =>
      if skipStart then [Ramp(duration, a1, f1)] else [Ramp(0, a0, f0), Ramp(duration, a1, f1)]
    case Braking(braking, duration) => [Brake(0, braking), Brake(duration, braking)]
  }

  predicate Skips(c: seq<Primitive>, i: nat)
    requires i < |c|
  {
    c[i].Active? && (c[i].startAmplitude, c[i].startFrequency) == Remembered(c, i)
  }

  /** The segments the composer emits for the elements from i on. */
  function Emit(c: seq<Primitive>, i: nat): seq<Segment>
    requires i <= |c|
    decreases |c| - i
  {
    if i == |c| then [] else Elements(c[i], Skips(c, i)) + Emit(c, i + 1)
  }

  /** The naive emission: every element has its start segment. */
  function EmitAll(c: seq<Primitive>, i: nat): seq<Segment>
    requires i <= |c|
    decreases |c| - i
  {
    if i == |c| then [] else Elements(c[i], false) + EmitAll(c, i + 1)
  }

  // ----- Playback -----

  /** What the device does at a moment: its levels, the chirp flag and the braking type. */
  datatype Output = Output(amplitude: real, frequency: real, chirp: bool, braking: int)

  function Target(s: Segment): Output {
    match s
    case Ramp(_, amplitude, frequency) => Output(amplitude, frequency, true, 0)
    case Brake(_, braking) => Output(0.0, 0.0, false, braking)
  }

  /** The moment t into a ramp of the given length: linear in both levels. */
  function Between(from: Output, to: Output, t: real, length: real): Output
    requires length > 0.0
  {
    to.(amplitude := from.amplitude + (to.amplitude - from.amplitude) * t / length,
        frequency := from.frequency + (to.frequency - from.frequency) * t / length)
  }

  /** The output t milliseconds into a program; a segment without a positive length is a jump. */
  function Play(program: seq<Segment>, from: Output, t: real): Output {
    if program == [] then from
    else
      var s := program[0];
      var length := s.duration as real;
      if s.duration <= 0 then Play(program[1..], Target(s), t)
      else if t < length then Between(from, Target(s), t, length)
      else Play(program[1..], Target(s), t - length)
  }

  /** Element i starts anew: it brakes, is the first, follows a braking one, or jumps. */
  predicate StartsAnew(c: seq<Primitive>, i: nat)
    requires i < |c|
  {
    || c[i].Braking? || i == 0 || c[i - 1].Braking?
    || c[i].startAmplitude != c[i - 1].endAmplitude
    || c[i].startFrequency != c[i - 1].endFrequency
  }

  /** Validation keeps the sentinel out of range, so that it never passes for a start value. */
  lemma {:induction false} SkipsIffContinues(c: seq<Primitive>, i: nat)
    requires i < |c| && Accepts(c[i])
    ensures Skips(c, i) <==> !StartsAnew(c, i)
  {}

  lemma {:induction false} PlayCons(s: Segment, rest: seq<Segment>, from: Output, t: real)
    ensures Play([s] + rest, from, t) ==
            if s.duration <= 0 then Play(rest, Target(s), t)
            else if t < s.duration as real then Between(from, Target(s), t, s.duration as real)
            else Play(rest, Target(s), t - s.duration as real)
  {
    assert ([s] + rest)[1..] == rest;
  }

  /** Where an element leaves the device, and what it plays, with its start segment. */
  lemma {:induction false} PlayElement(p: Primitive, rest: seq<Segment>, from: Output, t: real)
    ensures Play(Elements(p, false) + rest, from, t) ==
            var start, end := Elements(p, false)[0], Elements(p, false)[1];
            if p.duration <= 0 then Play(rest, Target(end), t)
            else if t < p.duration as real then Between(Target(start), Target(end), t, p.duration as real)
            else Play(rest, Target(end), t - p.duration as real)
  {
    var start, end := Elements(p, false)[0], Elements(p, false)[1];
    assert Elements(p, false) + rest == [start] + ([end] + rest);
    PlayCons(start, [end] + rest, from, t);
    PlayCons(end, rest, Target(start), t);
  }

  /** The remembered values are the state of playback whenever they matter. */
  ghost predicate InStep(c: seq<Primitive>, i: nat, now: Output)
    requires i <= |c|
  {
    i > 0 && c[i - 1].Active? ==> now == Output(c[i - 1].endAmplitude, c[i - 1].endFrequency, true, 0)
  }

  lemma {:induction false} SameCurveFrom(c: seq<Primitive>, i: nat, from: Output, t: real)
    requires i <= |c| && InStep(c, i, from) && forall p <- c :: Accepts(p)
    ensures Play(Emit(c, i), from, t) == Play(EmitAll(c, i), from, t)
    decreases |c| - i
  {
    if i < |c| {
      var p, rest, all := c[i], Emit(c, i + 1), EmitAll(c, i + 1);
      var end := Target(Elements(p, false)[1]);
      SkipsIffContinues(c, i);
      PlayElement(p, all, from, t);
      if Skips(c, i) {
        PlayCons(Ramp(p.duration, p.endAmplitude, p.endFrequency), rest, from, t);
        assert from == Target(Elements(p, false)[0]);
      } else {
        PlayElement(p, rest, from, t);
      }
      SameCurveFrom(c, i + 1, end, t);
      SameCurveFrom(c, i + 1, end, t - p.duration as real);
    }
  }

  /**
    Leaving out the redundant start segments changes nothing that is played: at every moment,
    from whatever the device did before, both programs put out the same.
   */
  lemma {:induction false} SameCurve(c: seq<Primitive>, before: Output, t: real)
    requires Valid(c)
    ensures Play(Emit(c, 0), before, t) == Play(EmitAll(c, 0), before, t)
  {
    SameCurveFrom(c, 0, before, t);
  }

  /** Without the range test a start at the sentinel would be left out, and the curve would change. */
  lemma {:induction false} RangeTestMatters(before: Output)
    requires before.amplitude != SENTINEL
    ensures var c := [Active(1, SENTINEL, SENTINEL, 0.5, 150.0)];
            Play(Emit(c, 0), before, 0.0) != Play(EmitAll(c, 0), before, 0.0)
  {
    var c := [Active(1, SENTINEL, SENTINEL, 0.5, 150.0)];
    assert Emit(c, 1) == [] && EmitAll(c, 1) == [];
    PlayElement(c[0], [], before, 0.0);
    PlayCons(Ramp(1, 0.5, 150.0), [], before, 0.0);
  }

  // ----- Counting segments -----

  function Indices(c: seq<Primitive>, i: nat): set<nat> {
    set k: nat | i <= k < |c| && StartsAnew(c, k)
  }

  lemma {:induction false} CountFrom(c: seq<Primitive>, i: nat)
    requires i <= |c| && forall p <- c :: Accepts(p)
    ensures |Emit(c, i)| == |c| - i + |Indices(c, i)|
    decreases |c| - i
  {
    if i == |c| {
      assert Indices(c, i) == {};
    } else {
      CountFrom(c, i + 1);
      SkipsIffContinues(c, i);
      assert Indices(c, i) == Indices(c, i + 1) + if StartsAnew(c, i) then {i} else {};
    }
  }

  lemma {:induction false} IndicesBound(c: seq<Primitive>, i: nat)
    requires i <= |c|
    ensures |Indices(c, i)| <= |c| - i
    decreases |c| - i
  {
    if i == |c| {
      assert Indices(c, i) == {};
    } else {
      IndicesBound(c, i + 1);
      assert Indices(c, i) == Indices(c, i + 1) + if StartsAnew(c, i) then {i} else {};
    }
  }

  /** One segment an element, and one more for each element that starts anew. */
  lemma {:induction false} SegmentCount(c: seq<Primitive>)
    requires Valid(c)
    ensures |Emit(c, 0)| == |c| + |Indices(c, 0)| <= 254
  {
    CountFrom(c, 0);
    IndicesBound(c, 0);
  }

  /** How many of the elements from j up to i start anew. */
  function StartsBetween(c: seq<Primitive>, j: nat, i: nat): nat
    requires j <= i <= |c|
    decreases i - j
  {
    if j == i then 0 else StartsBetween(c, j + 1, i) + if StartsAnew(c, j) then 1 else 0
  }

  /** The segments of element i: their place in the program, and what they are. */
  ghost predicate HasElementAt(program: seq<Segment>, k: nat, c: seq<Primitive>, i: nat)
    requires i < |c|
  {
    match c[i]
    case Active(duration, a0, f0, a1, f1) =>
      if StartsAnew(c, i)
      then k + 2 <= |program| && program[k] == Ramp(0, a0, f0) && program[k + 1] == Ramp(duration, a1, f1)
      else k + 1 <= |program| && program[k] == Ramp(duration, a1, f1)
    case Braking(braking, duration) =>
      k + 2 <= |program| && program[k] == Brake(0, braking) && program[k + 1] == Brake(duration, braking)
  }

  lemma {:induction false} EmittedFrom(c: seq<Primitive>, j: nat, i: nat)
    requires j <= i < |c| && forall p <- c :: Accepts(p)
    ensures HasElementAt(Emit(c, j), i - j + StartsBetween(c, j, i), c, i)
    decreases i - j
  {
    SkipsIffContinues(c, j);
    if j < i {
      EmittedFrom(c, j + 1, i);
      Shifted(Elements(c[j], Skips(c, j)), Emit(c, j + 1), i - (j + 1) + StartsBetween(c, j + 1, i), c, i);
    }
  }

  lemma Shifted(front: seq<Segment>, program: seq<Segment>, k: nat, c: seq<Primitive>, i: nat)
    requires i < |c| && HasElementAt(program, k, c, i)
    ensures HasElementAt(front + program, |front| + k, c, i)
  {
    assert (front + program)[|front| + k] == program[k];
    if k + 1 < |program| {
      assert (front + program)[|front| + k + 1] == program[k + 1];
    }
  }

  /**
    The program of an accepted composite, segment by segment: each element stands behind as
    many segments as there are elements before it, and one more for each that starts anew.
   */
  lemma {:induction false} EmittedInOrder(c: seq<Primitive>, i: nat)
    requires Valid(c) && i < |c|
    ensures HasElementAt(Emit(c, 0), i + StartsBetween(c, 0, i), c, i)
  {
    EmittedFrom(c, 0, i);
  }

  // ----- The total duration -----

  /** The true sum of the durations of the first n elements. */
  function Sum(c: seq<Primitive>, n: nat): int
    requires n <= |c|
  {
    if n == 0 then 0 else Sum(c, n - 1) + c[n - 1].duration
  }

  /** The value of an expression of type uint32_t. */
  function Wrap(n: int): (r: nat)
    ensures r < 0x1_0000_0000
    ensures r == n <==> 0 <= n < 0x1_0000_0000
  {
    n % 0x1_0000_0000
  }

  function SleepMicros(c: seq<Primitive>): nat {
    Wrap(Wrap(Sum(c, |c|)) * 1000)
  }

  lemma {:induction false} SumBounds(c: seq<Primitive>, n: nat)
    requires n <= |c| && forall p <- c :: Accepts(p)
    ensures Sum(c, n) <= n * 16383
    ensures (forall p <- c :: p.duration >= 0) ==> Sum(c, n) >= 0
  {
    if n > 0 {
      SumBounds(c, n - 1);
      assert c[n - 1] in c;
    }
  }

  /** One turn of the accumulation in 32 bits. */
  lemma {:induction false} WrapOfSum(c: seq<Primitive>, i: nat)
    requires i < |c|
    ensures Wrap(Wrap(Sum(c, i)) + c[i].duration) == Wrap(Sum(c, i + 1))
  {
    var sum, q := Sum(c, i), Sum(c, i) / 0x1_0000_0000;
    assert sum == q * 0x1_0000_0000 + Wrap(sum);
    Shift(Wrap(sum) + c[i].duration, q);
  }

  lemma Shift(n: int, q: int)
    ensures Wrap(n + q * 0x1_0000_0000) == Wrap(n)
  {}

  /** The completion callback waits for the true total unless braking elements take time away. */
  lemma {:induction false} SleepIsExactIff(c: seq<Primitive>)
    requires Valid(c)
    ensures (forall p <- c :: p.duration >= 0) ==> 0 <= Sum(c, |c|) <= 2080641
    ensures SleepMicros(c) == Sum(c, |c|) * 1000 <==> Sum(c, |c|) >= 0
  {
    SumBounds(c, |c|);
  }

  /** A composite that passes validation with a negative braking duration. */
  lemma {:induction false} NegativeBrakeWraps()
    ensures var c := [Braking(1, -1)];
            Valid(c) && Wrap(Sum(c, 1)) == 0xFFFF_FFFF && SleepMicros(c) == 4294966296
  {
    var c := [Braking(1, -1)];
    assert Sum(c, 0) == 0;
  }

  // ----- What a composite plays -----

  /** The output of one element t milliseconds after it begins: a ramp of its own levels, or its braking. */
  function Moment(p: Primitive, t: real): Output
    requires p.duration > 0
  {
    match p
    case Active(duration, a0, f0, a1, f1) =>
      Output(a0 + (a1 - a0) * t / duration as real, f0 + (f1 - f0) * t / duration as real, true, 0)
    case Braking(braking, _) => Output(0.0, 0.0, false, braking)
  }

  /** What an element leaves behind. */
  function Final(p: Primitive): Output {
    match p
    case Active(_, _, _, a1, f1) => Output(a1, f1, true, 0)
    case Braking(braking, _) => Output(0.0, 0.0, false, braking)
  }

  /** How long an element plays: one of negative duration is over at once. */
  function Length(p: Primitive): (n: nat)
    ensures p.duration >= 0 ==> n == p.duration
  {
    if p.duration > 0 then p.duration else 0
  }

  /** When element n begins. */
  function Elapsed(c: seq<Primitive>, n: nat): nat
    requires n <= |c|
  {
    if n == 0 then 0 else Elapsed(c, n - 1) + Length(c[n - 1])
  }

  lemma {:induction false} ElapsedIsSum(c: seq<Primitive>, n: nat)
    requires n <= |c| && forall p <- c :: p.duration >= 0
    ensures Elapsed(c, n) == Sum(c, n)
  {
    if n > 0 {
      assert c[n - 1] in c;
      ElapsedIsSum(c, n - 1);
    }
  }

  lemma {:induction false} ElapsedGrows(c: seq<Primitive>, i: nat, j: nat)
    requires i <= j <= |c|
    ensures Elapsed(c, i) <= Elapsed(c, j)
    decreases j - i
  {
    if i < j {
      ElapsedGrows(c, i, j - 1);
    }
  }

  /** One element, with its start segment, plays itself and then what follows. */
  lemma {:induction false} PlayOne(p: Primitive, rest: seq<Segment>, from: Output, t: real)
    requires t >= 0.0
    ensures Play(Elements(p, false) + rest, from, t) ==
            if t < Length(p) as real then Moment(p, t) else Play(rest, Final(p), t - Length(p) as real)
  {
    PlayElement(p, rest, from, t);
  }

  lemma {:induction false} PlaysFrom(c: seq<Primitive>, j: nat, i: nat, from: Output, t: real)
    requires j <= i < |c| && Elapsed(c, i) as real <= t < Elapsed(c, i + 1) as real
    ensures Play(EmitAll(c, j), from, t - Elapsed(c, j) as real) == Moment(c[i], t - Elapsed(c, i) as real)
    decreases i - j
  {
    ElapsedGrows(c, j, i);
    var local := t - Elapsed(c, j) as real;
    PlayOne(c[j], EmitAll(c, j + 1), from, local);
    if j < i {
      ElapsedGrows(c, j + 1, i);
      assert local - Length(c[j]) as real == t - Elapsed(c, j + 1) as real;
      PlaysFrom(c, j + 1, i, Final(c[j]), t);
    }
  }

  /**
    What an accepted composite plays, from whatever the device did before: while element i
    lasts, the ramp between its own levels or its own braking.
   */
  lemma {:induction false} PlaysItsElements(c: seq<Primitive>, i: nat, before: Output, t: real)
    requires Valid(c) && i < |c|
    requires Elapsed(c, i) as real <= t < Elapsed(c, i + 1) as real
    ensures Play(Emit(c, 0), before, t) == Moment(c[i], t - Elapsed(c, i) as real)
  {
    SameCurve(c, before, t);
    PlaysFrom(c, 0, i, before, t);
  }

  lemma {:induction false} EndsFrom(c: seq<Primitive>, j: nat, from: Output, t: real)
    requires j <= |c| && t >= Elapsed(c, |c|) as real
    ensures Play(EmitAll(c, j), from, t - Elapsed(c, j) as real) == if j == |c| then from else Final(c[|c| - 1])
    decreases |c| - j
  {
    if j < |c| {
      ElapsedGrows(c, j + 1, |c|);
      var local := t - Elapsed(c, j) as real;
      PlayOne(c[j], EmitAll(c, j + 1), from, local);
      assert local - Length(c[j]) as real == t - Elapsed(c, j + 1) as real;
      EndsFrom(c, j + 1, Final(c[j]), t);
    }
  }

  /** And after its last element the device stays where that one ended. */
  lemma {:induction false} StaysAtTheEnd(c: seq<Primitive>, before: Output, t: real)
    requires Valid(c) && t >= Elapsed(c, |c|) as real
    ensures Play(Emit(c, 0), before, t) == Final(c[|c| - 1])
  {
    hide Play, Emit, EmitAll, Final;
    SameCurve(c, before, t);
    EndsFrom(c, 0, before, t);
  }
}
