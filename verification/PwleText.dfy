/**
  The text of a vibration program: the printers that append to the string builder, the
  composer's loop over them, and a parser that reads the program back.
 */
module PwleText {
  import opened Wrappers
  import opened Decimal
  import opened Pwle

  predicate IsToken(s: string) {
    forall c <- s :: c != ',' && c != ':'
  }

  /** A printed level; how a float is rendered is left open but for the two separators. */
  type Token = s: string | IsToken(s) witness ""

  const HEADER := "S:0,WF:4,RP:0,WT:0"
  const KEYS: seq<string> := ["T", "L", "F", "C", "B", "AR", "V"]

  type Row = r: seq<string> | |r| == 7 witness ["", "", "", "", "", "", ""]

  /** The seven values of a segment, in the order of KEYS. */
  function Values(s: Segment, show: real -> Token): Row
  {
    match s
    case Ramp(duration, amplitude, frequency) =>
      [IntText(duration), show(amplitude), show(frequency), "1", "0", "0", "0"]
    case Brake(duration, braking) =>
      [IntText(duration), "0", "0", "0", IntText(braking), "0", "0"]
  }

  /** What the fields of segment k begin with. */
  function Labels(k: nat): (r: seq<string>)
    ensures |r| == 7 && AreLabels(r)
    ensures forall j | 0 <= j < 7 :: r[j] == "," + KEYS[j] + NatText(k) + ":"
  {
    seq(7, j requires 0 <= j < 7 => "," + KEYS[j] + NatText(k) + ":")
  }

  predicate AreLabels(labels: seq<string>) {
    forall j | 0 <= j < |labels| :: labels[j] != "" && labels[j][0] == ','
  }

  /** The fields from the j-th on. */
  function FieldsText(labels: seq<string>, values: seq<string>, j: nat): string
    requires |labels| == |values| && j <= |labels|
    decreases |labels| - j
  {
    if j == |labels| then "" else labels[j] + values[j] + FieldsText(labels, values, j + 1)
  }

  function SegmentText(s: Segment, k: nat, show: real -> Token): string {
    FieldsText(Labels(k), Values(s, show), 0)
  }

  /** The text of a program whose first segment is number k. */
  function ProgramText(program: seq<Segment>, k: nat, show: real -> Token): string {
    if program == [] then ""
    else SegmentText(program[0], k, show) + ProgramText(program[1..], k + 1, show)
  }

  // ----- The printers -----

  class StringBuilder {
    var text: string

    constructor ()
      ensures text == ""
    {
      text := "";
    }

    method Append(s: string)
      modifies this
      ensures text == old(text) + s
    {
      text := text + s;
    }

    /** One "<< name << index << ':' << value" line of the printers. */
    method AppendField(key: string, index: nat, value: string)
      modifies this
      ensures text == old(text) + ("," + key + NatText(index) + ":" + value)
    {
      Append(",");
      Append(key);
      Append(NatText(index));
      Append(":");
      Append(value);
    }
  }

  /** Appends the next field of a segment whose whole text is known. */
  method AppendNext(builder: StringBuilder, key: string, index: nat, value: string,
                    ghost values: Row, ghost j: nat, ghost whole: string)
    requires j < 7 && key == KEYS[j] && value == values[j]
    requires builder.text + FieldsText(Labels(index), values, j) == whole
    modifies builder
    ensures builder.text + FieldsText(Labels(index), values, j + 1) == whole
  {
    hide NatText;
    GlueField(builder.text, Labels(index)[j], value, FieldsText(Labels(index), values, j + 1));
    builder.AppendField(key, index, value);
  }

  lemma GlueField(before: string, prefix: string, value: string, rest: string)
    ensures before + (prefix + value + rest) == before + (prefix + value) + rest
  {}

  method ConstructActiveDefaults(builder: StringBuilder, index: nat, ghost values: Row, ghost whole: string)
    requires values[3] == "1" && values[4] == values[5] == values[6] == "0"
    requires builder.text + FieldsText(Labels(index), values, 3) == whole
    modifies builder
    ensures builder.text == whole
  {
    AppendNext(builder, "C", index, "1", values, 3, whole);
    AppendNext(builder, "B", index, "0", values, 4, whole);
    AppendNext(builder, "AR", index, "0", values, 5, whole);
    AppendNext(builder, "V", index, "0", values, 6, whole);
  }

  method ConstructActiveSegment(builder: StringBuilder, index: nat, duration: int, amplitude: real, frequency: real,
                                show: real -> Token)
    modifies builder
    ensures builder.text == old(builder.text) + SegmentText(Ramp(duration, amplitude, frequency), index, show)
  {
    ghost var values := Values(Ramp(duration, amplitude, frequency), show);
    ghost var whole := builder.text + FieldsText(Labels(index), values, 0);
    AppendNext(builder, "T", index, IntText(duration), values, 0, whole);
    AppendNext(builder, "L", index, show(amplitude), values, 1, whole);
    AppendNext(builder, "F", index, show(frequency), values, 2, whole);
    ConstructActiveDefaults(builder, index, values, whole);
  }

  method ConstructBrakingSegment(builder: StringBuilder, index: nat, duration: int, braking: int,
                                 ghost show: real -> Token)
    modifies builder
    ensures builder.text == old(builder.text) + SegmentText(Brake(duration, braking), index, show)
  {
    ghost var values := Values(Brake(duration, braking), show);
    ghost var whole := builder.text + FieldsText(Labels(index), values, 0);
    AppendNext(builder, "T", index, IntText(duration), values, 0, whole);
    AppendNext(builder, "L", index, "0", values, 1, whole);
    AppendNext(builder, "F", index, "0", values, 2, whole);
    AppendNext(builder, "C", index, "0", values, 3, whole);
    AppendNext(builder, "B", index, IntText(braking), values, 4, whole);
    AppendNext(builder, "AR", index, "0", values, 5, whole);
    AppendNext(builder, "V", index, "0", values, 6, whole);
  }

  lemma ProgramCons(s: Segment, rest: seq<Segment>, k: nat, show: real -> Token)
    ensures ProgramText([s] + rest, k, show) == SegmentText(s, k, show) + ProgramText(rest, k + 1, show)
  {
    assert ([s] + rest)[1..] == rest;
  }

  /** Prints the next segment of a program whose whole text is known. */
  method AddRamp(builder: StringBuilder, index: nat, duration: int, amplitude: real, frequency: real,
                 show: real -> Token, ghost rest: seq<Segment>, ghost whole: string)
    requires builder.text + ProgramText([Ramp(duration, amplitude, frequency)] + rest, index, show) == whole
    modifies builder
    ensures builder.text + ProgramText(rest, index + 1, show) == whole
  {
    ghost var s := Ramp(duration, amplitude, frequency);
    ProgramCons(s, rest, index, show);
    Glue(builder.text, SegmentText(s, index, show), ProgramText(rest, index + 1, show));
    ConstructActiveSegment(builder, index, duration, amplitude, frequency, show);
  }

  method AddBrake(builder: StringBuilder, index: nat, duration: int, braking: int,
                  ghost show: real -> Token, ghost rest: seq<Segment>, ghost whole: string)
    requires builder.text + ProgramText([Brake(duration, braking)] + rest, index, show) == whole
    modifies builder
    ensures builder.text + ProgramText(rest, index + 1, show) == whole
  {
    ghost var s := Brake(duration, braking);
    ProgramCons(s, rest, index, show);
    Glue(builder.text, SegmentText(s, index, show), ProgramText(rest, index + 1, show));
    ConstructBrakingSegment(builder, index, duration, braking, show);
  }

  lemma Glue(a: string, b: string, c: string)
    ensures a + (b + c) == a + b + c
  {}

  /** The active case of the loop: at most a start segment, and the element's ramp. */
  method AddActive(builder: StringBuilder, segmentIdx: nat, e: Primitive, skipStart: bool, show: real -> Token,
                   ghost rest: seq<Segment>, ghost whole: string) returns (next: nat)
    requires e.Active?
    requires builder.text + ProgramText(Elements(e, skipStart) + rest, segmentIdx, show) == whole
    modifies builder
    ensures next == segmentIdx + |Elements(e, skipStart)|
    ensures builder.text + ProgramText(rest, next, show) == whole
  {
    next := segmentIdx;
    ghost var ramp := Ramp(e.duration, e.endAmplitude, e.endFrequency);
    if !skipStart {
      assert Elements(e, skipStart) + rest == [Ramp(0, e.startAmplitude, e.startFrequency)] + ([ramp] + rest);
      AddRamp(builder, next, 0, e.startAmplitude, e.startFrequency, show, [ramp] + rest, whole);
      next := next + 1;
    }
    AddRamp(builder, next, e.duration, e.endAmplitude, e.endFrequency, show, rest, whole);
    next := next + 1;
  }

  /** The braking case: a jump and a hold, both of the same braking type. */
  method AddBraking(builder: StringBuilder, segmentIdx: nat, e: Primitive, ghost show: real -> Token,
                    ghost rest: seq<Segment>, ghost whole: string) returns (next: nat)
    requires e.Braking?
    requires builder.text + ProgramText(Elements(e, false) + rest, segmentIdx, show) == whole
    modifies builder
    ensures next == segmentIdx + 2
    ensures builder.text + ProgramText(rest, next, show) == whole
  {
    ghost var hold := Brake(e.duration, e.braking);
    assert Elements(e, false) + rest == [Brake(0, e.braking)] + ([hold] + rest);
    AddBrake(builder, segmentIdx, 0, e.braking, show, [hold] + rest, whole);
    next := segmentIdx + 1;
    AddBrake(builder, next, e.duration, e.braking, show, rest, whole);
    next := next + 1;
  }

  lemma NoMoreText(text: string, k: nat, show: real -> Token)
    ensures text + ProgramText([], k, show) == text
  {}

  /** The tests at the head of each case, as the composer makes them. */
  predicate Admits(e: Primitive)
    ensures Admits(e) <==> Accepts(e)
  {
    match e
    case Active(duration, startAmplitude, startFrequency, endAmplitude, endFrequency) =>
      if duration < 0 || duration > DURATION_MAX then false
      else if startAmplitude < LEVEL_MIN || startAmplitude > LEVEL_MAX ||
              endAmplitude < LEVEL_MIN || endAmplitude > LEVEL_MAX then false
      else if startFrequency < FREQUENCY_MIN || startFrequency > FREQUENCY_MAX ||
              endFrequency < FREQUENCY_MIN || endFrequency > FREQUENCY_MAX then false
      else true
    case Braking(braking, duration) =>
      if braking > CLAB then false else if duration > DURATION_MAX then false else true
  }

  /** The rest of one turn of the loop, for an element that passed its tests. */
  method AddElement(builder: StringBuilder, composite: seq<Primitive>, i: nat, segmentIdx: nat,
                    prevEndAmplitude: real, prevEndFrequency: real, totalDuration: nat,
                    show: real -> Token, ghost whole: string)
    returns (next: nat, endAmplitude: real, endFrequency: real, total: nat)
    requires i < |composite| && (prevEndAmplitude, prevEndFrequency) == Remembered(composite, i)
    requires builder.text + ProgramText(Emit(composite, i), segmentIdx, show) == whole
    requires totalDuration == Wrap(Sum(composite, i))
    modifies builder
    ensures (endAmplitude, endFrequency) == Remembered(composite, i + 1)
    ensures builder.text + ProgramText(Emit(composite, i + 1), next, show) == whole
    ensures next + |Emit(composite, i + 1)| == segmentIdx + |Emit(composite, i)|
    ensures total == Wrap(Sum(composite, i + 1))
  {
    hide SegmentText;
    var e := composite[i];
    ghost var rest := Emit(composite, i + 1);
    if e.Active? {
      var skip := e.startAmplitude == prevEndAmplitude && e.startFrequency == prevEndFrequency;
      next := AddActive(builder, segmentIdx, e, skip, show, rest, whole);
      endAmplitude, endFrequency := e.endAmplitude, e.endFrequency;
    } else {
      next := AddBraking(builder, segmentIdx, e, show, rest, whole);
      endAmplitude, endFrequency := SENTINEL, SENTINEL;
    }
    total := Wrap(totalDuration + e.duration);
    WrapOfSum(composite, i);
  }

  /**
    composePwle. It accepts exactly the valid composites, and then the builder holds the text
    of the emitted program, the index is its length and the total is the wrapped sum.
   */
  method ComposePwle(composite: seq<Primitive>, show: real -> Token)
    returns (accepted: bool, text: string, segmentIdx: nat, totalDuration: nat)
    ensures accepted <==> Valid(composite)
    ensures accepted ==> text == "S:0,WF:4,RP:0,WT:0" + ProgramText(Emit(composite, 0), 0, show)
    ensures accepted ==> segmentIdx == |Emit(composite, 0)|
    ensures accepted ==> totalDuration == Wrap(Sum(composite, |composite|))
  {
    hide SegmentText, ProgramText, Wrap, Skips;
    text, segmentIdx, totalDuration := "", 0, 0;
    if |composite| <= 0 || |composite| > SIZE_MAX {
      return false, text, segmentIdx, totalDuration;
    }
    var prevEndAmplitude, prevEndFrequency := SENTINEL, SENTINEL;
    var builder := new StringBuilder();
    builder.Append(HEADER);
    ghost var whole := builder.text + ProgramText(Emit(composite, 0), 0, show);
    for i := 0 to |composite|
      invariant forall k | 0 <= k < i :: Accepts(composite[k])
      invariant (prevEndAmplitude, prevEndFrequency) == Remembered(composite, i)
      invariant fresh(builder) && builder.text + ProgramText(Emit(composite, i), segmentIdx, show) == whole
      invariant segmentIdx + |Emit(composite, i)| == |Emit(composite, 0)|
      invariant totalDuration == Wrap(Sum(composite, i))
    {
      if !Admits(composite[i]) {
        return false, text, segmentIdx, totalDuration;
      }
      segmentIdx, prevEndAmplitude, prevEndFrequency, totalDuration := AddElement(
        builder, composite, i, segmentIdx, prevEndAmplitude, prevEndFrequency, totalDuration, show, whole);
    }
    text := builder.text;
    NoMoreText(text, segmentIdx, show);
    accepted := true;
  }

  // ----- Reading a program back -----

  predicate CommaFree(s: string) {
    forall c <- s :: c != ','
  }

  /** The length of the text before the first comma. */
  function ValueLength(s: string): (n: nat)
    ensures n <= |s| && (n < |s| ==> s[n] == ',') && forall k | 0 <= k < n :: s[k] != ','
  {
    if s == "" || s[0] == ',' then 0 else 1 + ValueLength(s[1..])
  }

  /** Reads the fields from the j-th on: their values and the text behind them. */
  function ReadFields(text: string, labels: seq<string>, j: nat): (r: Option<(seq<string>, string)>)
    requires j <= |labels| && AreLabels(labels)
    ensures r.Some? ==> |r.value.0| == |labels| - j && |r.value.1| + (|labels| - j) <= |text|
    decreases |labels| - j
  {
    if j == |labels| then Some(([], text))
    else if !(labels[j] <= text) then None
    else
      var rest := text[|labels[j]|..];
      var n := ValueLength(rest);
      match ReadFields(rest[n..], labels, j + 1)
      case None => None
      case Some(more) => Some(([rest[..n]] + more.0, more.1))
  }

  /** Reads segments numbered k, k + 1, ... to the end of the text. */
  function ReadRows(text: string, k: nat): Option<seq<Row>>
    decreases |text|
  {
    if text == "" then Some([])
    else
      match ReadFields(text, Labels(k), 0)
      case None => None
      case Some(row) =>
        match ReadRows(row.1, k + 1)
        case None => None
        case Some(rows) => Some([row.0] + rows)
  }

  function ReadProgram(text: string): Option<seq<Row>> {
    if HEADER <= text then ReadRows(text[|HEADER|..], 0) else None
  }

  function RowsText(rows: seq<Row>, k: nat): string {
    if rows == [] then "" else FieldsText(Labels(k), rows[0], 0) + RowsText(rows[1..], k + 1)
  }

  function Rows(program: seq<Segment>, show: real -> Token): seq<Row> {
    if program == [] then [] else [Values(program[0], show)] + Rows(program[1..], show)
  }

  predicate AtField(text: string) {
    text == "" || text[0] == ','
  }

  lemma ValueEnds(value: string, rest: string)
    requires CommaFree(value) && AtField(rest)
    ensures ValueLength(value + rest) == |value|
  {
    var s, n := value + rest, ValueLength(value + rest);
    assert forall k | 0 <= k < |value| :: s[k] == value[k] && value[k] in value;
    assert n >= |value|;
    if rest != "" {
      assert s[|value|] == rest[0];
    }
  }

  lemma FieldsStart(labels: seq<string>, values: seq<string>, j: nat, rest: string)
    requires |labels| == |values| && j <= |labels| && AreLabels(labels) && AtField(rest)
    ensures AtField(FieldsText(labels, values, j) + rest)
  {
    if j < |labels| {
      assert labels[j] in labels;
    }
  }

  /** Reading one field: its label and its value come off, and what follows is read next. */
  lemma ReadsField(labels: seq<string>, j: nat, value: string, more: string)
    requires j < |labels| && AreLabels(labels) && CommaFree(value) && AtField(more)
    ensures ReadFields(labels[j] + (value + more), labels, j) ==
            match ReadFields(more, labels, j + 1)
            case None => None
            case Some(r) => Some(([value] + r.0, r.1))
  {
    ValueEnds(value, more);
    var text := labels[j] + (value + more);
    assert text[|labels[j]|..] == value + more;
    assert (value + more)[..|value|] == value && (value + more)[|value|..] == more;
  }

  lemma {:induction false} ReadsFields(labels: seq<string>, values: seq<string>, j: nat, rest: string)
    requires |labels| == |values| && j <= |labels| && AreLabels(labels)
    requires AtField(rest) && forall i | 0 <= i < |values| :: CommaFree(values[i])
    ensures ReadFields(FieldsText(labels, values, j) + rest, labels, j) == Some((values[j..], rest))
    decreases |labels| - j
  {
    if j == |labels| {
      assert FieldsText(labels, values, j) + rest == rest;
    } else {
      var tail := FieldsText(labels, values, j + 1);
      ReadsFields(labels, values, j + 1, rest);
      FieldsStart(labels, values, j + 1, rest);
      ReadsField(labels, j, values[j], tail + rest);
      assert FieldsText(labels, values, j) + rest == labels[j] + (values[j] + (tail + rest)) by {
        GlueFour(labels[j], values[j], tail, rest);
      }
      Prepend(values, j);
    }
  }

  lemma Prepend(values: seq<string>, j: nat)
    requires j < |values|
    ensures [values[j]] + values[j + 1..] == values[j..]
  {}

  lemma GlueFour(a: string, b: string, c: string, d: string)
    ensures a + b + c + d == a + (b + (c + d))
  {}

  lemma RowsStart(rows: seq<Row>, k: nat)
    ensures AtField(RowsText(rows, k))
  {
    if rows != [] {
      FieldsStart(Labels(k), rows[0], 0, "");
      assert FieldsText(Labels(k), rows[0], 0) + "" == FieldsText(Labels(k), rows[0], 0) != "";
    }
  }

  lemma {:induction false} ReadsRows(rows: seq<Row>, k: nat)
    requires forall row <- rows :: CommaFreeRow(row)
    ensures ReadRows(RowsText(rows, k), k) == Some(rows)
  {
    hide ReadFields, FieldsText, Labels;
    if rows != [] {
      assert CommaFreeRow(rows[0]);
      RowsStart(rows[1..], k + 1);
      ReadsFields(Labels(k), rows[0], 0, RowsText(rows[1..], k + 1));
      ReadsRows(rows[1..], k + 1);
      assert rows[0][0..] == rows[0];
      assert [rows[0]] + rows[1..] == rows;
    }
  }

  predicate CommaFreeRow(row: Row) {
    forall i | 0 <= i < 7 :: CommaFree(row[i])
  }

  /** The other way round: what was read as a field was one. */
  lemma WritesField(text: string, labels: seq<string>, j: nat) returns (value: string, more: string)
    requires j < |labels| && AreLabels(labels) && ReadFields(text, labels, j).Some?
    ensures text == labels[j] + (value + more) && ReadFields(more, labels, j + 1).Some?
    ensures ReadFields(text, labels, j).value.0 == [value] + ReadFields(more, labels, j + 1).value.0
    ensures ReadFields(text, labels, j).value.1 == ReadFields(more, labels, j + 1).value.1
  {
    var rest := text[|labels[j]|..];
    var n := ValueLength(rest);
    value, more := rest[..n], rest[n..];
    ThreeParts(text, |labels[j]|, n);
  }

  lemma {:induction false} WritesFields(text: string, labels: seq<string>, j: nat, values: seq<string>)
    requires |labels| == |values| && j <= |labels| && AreLabels(labels)
    requires ReadFields(text, labels, j).Some? && ReadFields(text, labels, j).value.0 == values[j..]
    ensures text == FieldsText(labels, values, j) + ReadFields(text, labels, j).value.1
    decreases |labels| - j
  {
    if j == |labels| {
      assert text == "" + text;
    } else {
      var value, more := WritesField(text, labels, j);
      TailOf(values, j, value, ReadFields(more, labels, j + 1).value.0);
      WritesFields(more, labels, j + 1, values);
      GlueFour(labels[j], value, FieldsText(labels, values, j + 1), ReadFields(more, labels, j + 1).value.1);
    }
  }

  lemma TailOf(values: seq<string>, j: nat, value: string, tail: seq<string>)
    requires j < |values| && values[j..] == [value] + tail
    ensures values[j] == value && values[j + 1..] == tail
  {
    assert values[j] == values[j..][0];
    assert values[j + 1..] == values[j..][1..];
  }

  lemma ThreeParts(text: string, m: nat, n: nat)
    requires m + n <= |text|
    ensures text == text[..m] + (text[m..][..n] + text[m..][n..])
  {}

  lemma {:induction false} WritesRows(text: string, k: nat, rows: seq<Row>)
    requires ReadRows(text, k) == Some(rows)
    ensures RowsText(rows, k) == text
    decreases |text|
  {
    if text != "" {
      var row := ReadFields(text, Labels(k), 0).value;
      assert row.0[0..] == row.0;
      WritesFields(text, Labels(k), 0, row.0);
      WritesRows(row.1, k + 1, rows[1..]);
    }
  }

  /**
    Reading is exact: a text reads as some rows only if it is the header followed by the seven
    fields of each row, in order, tagged with the row's number, and nothing else.
   */
  lemma {:induction false} ReadIsExact(text: string, rows: seq<Row>)
    requires ReadProgram(text) == Some(rows)
    ensures text == HEADER + RowsText(rows, 0)
  {
    WritesRows(text[|HEADER|..], 0, rows);
  }

  lemma ValuesAreCommaFree(s: Segment, show: real -> Token)
    ensures CommaFreeRow(Values(s, show))
  {
    assert CommaFree(IntText(s.duration));
    if s.Brake? {
      assert CommaFree(IntText(s.braking));
    }
  }

  lemma {:induction false} RowsOf(program: seq<Segment>, k: nat, show: real -> Token)
    ensures RowsText(Rows(program, show), k) == ProgramText(program, k, show)
    ensures |Rows(program, show)| == |program|
    ensures forall i | 0 <= i < |program| :: Rows(program, show)[i] == Values(program[i], show)
  {
    if program != [] {
      RowsOf(program[1..], k + 1, show);
      assert Rows(program, show)[1..] == Rows(program[1..], show);
    }
  }

  /** A segment as the text shows it: numbers in full, levels as their tokens. */
  datatype Shown =
    | ShownRamp(duration: int, level: string, frequency: string)
    | ShownBrake(duration: int, braking: int)

  function Show(s: Segment, show: real -> Token): Shown {
    match s
    case Ramp(duration, amplitude, frequency) => ShownRamp(duration, show(amplitude), show(frequency))
    case Brake(duration, braking) => ShownBrake(duration, braking)
  }

  function Decode(row: Row): Option<Shown> {
    var duration, braking := IntValue(row[0]), IntValue(row[4]);
    if duration.None? || braking.None? || row[5..] != ["0", "0"] then None
    else if row[3] == "1" && row[4] == "0" then Some(ShownRamp(duration.value, row[1], row[2]))
    else if row[1..4] == ["0", "0", "0"] then Some(ShownBrake(duration.value, braking.value))
    else None
  }

  lemma ZeroReads()
    ensures IntValue("0") == Some(0)
  {
    IntRoundTrip(0);
  }

  lemma {:induction false} DecodesValues(s: Segment, show: real -> Token)
    ensures Decode(Values(s, show)) == Some(Show(s, show))
  {
    hide IntText, IntValue;
    ZeroReads();
    IntRoundTrip(s.duration);
    if s.Brake? {
      IntRoundTrip(s.braking);
    }
  }

  /** The text of any program reads back to its segments, one row each, none missing. */
  lemma {:induction false} RoundTrip(program: seq<Segment>, show: real -> Token)
    ensures var rows := ReadProgram(HEADER + ProgramText(program, 0, show));
            && rows.Some? && |rows.value| == |program|
            && forall i | 0 <= i < |program| :: Decode(rows.value[i]) == Some(Show(program[i], show))
  {
    var body := ProgramText(program, 0, show);
    assert (HEADER + body)[|HEADER|..] == body;
    RowsOf(program, 0, show);
    forall row <- Rows(program, show) ensures CommaFreeRow(row) {
      var i :| 0 <= i < |program| && Rows(program, show)[i] == row;
      ValuesAreCommaFree(program[i], show);
    }
    ReadsRows(Rows(program, show), 0);
    forall i | 0 <= i < |program| ensures Decode(Rows(program, show)[i]) == Some(Show(program[i], show)) {
      DecodesValues(program[i], show);
    }
  }

  /** Programs of the same text have the same segments, as far as a printed level tells. */
  lemma {:induction false} SameTextSameSegments(p: seq<Segment>, q: seq<Segment>, show: real -> Token)
    requires ProgramText(p, 0, show) == ProgramText(q, 0, show)
    ensures |p| == |q| && forall i | 0 <= i < |p| :: Show(p[i], show) == Show(q[i], show)
  {
    RoundTrip(p, show);
    RoundTrip(q, show);
    var rows := ReadProgram(HEADER + ProgramText(p, 0, show)).value;
    forall i | 0 <= i < |p| ensures Show(p[i], show) == Show(q[i], show) {
      assert Decode(rows[i]) == Some(Show(p[i], show)) && Decode(rows[i]) == Some(Show(q[i], show));
    }
  }

  lemma LabelsAre(k: nat)
    ensures var n := NatText(k);
            && Labels(k)[0] == ",T" + n + ":" && Labels(k)[1] == ",L" + n + ":" && Labels(k)[2] == ",F" + n + ":"
            && Labels(k)[3] == ",C" + n + ":" && Labels(k)[4] == ",B" + n + ":" && Labels(k)[5] == ",AR" + n + ":"
            && Labels(k)[6] == ",V" + n + ":"
  {
    hide NatText;
    assert "," + "T" == ",T" && "," + "L" == ",L" && "," + "F" == ",F" && "," + "C" == ",C" && "," + "B" == ",B";
    assert "," + "AR" == ",AR" && "," + "V" == ",V";
  }

  /** The text of one segment, in full. */
  lemma {:induction false} SegmentTextIs(s: Segment, k: nat, show: real -> Token)
    ensures var n := NatText(k);
            SegmentText(s, k, show) ==
            match s
            case Ramp(duration, amplitude, frequency) =>
              (",T" + n + ":" + IntText(duration)) + (",L" + n + ":" + show(amplitude))
              + (",F" + n + ":" + show(frequency)) + (",C" + n + ":" + "1") + (",B" + n + ":" + "0")
              + (",AR" + n + ":" + "0") + (",V" + n + ":" + "0")
            case Brake(duration, braking) =>
              (",T" + n + ":" + IntText(duration)) + (",L" + n + ":" + "0") + (",F" + n + ":" + "0")
              + (",C" + n + ":" + "0") + (",B" + n + ":" + IntText(braking))
              + (",AR" + n + ":" + "0") + (",V" + n + ":" + "0")
  {
    hide Labels, FieldsText, NatText, IntText;
    LabelsAre(k);
    SevenFields(Labels(k), Values(s, show));
  }

  lemma LastField(labels: Row, values: Row)
    ensures FieldsText(labels, values, 6) == labels[6] + values[6]
  {
    assert FieldsText(labels, values, 7) == "";
  }

  lemma NextField(labels: Row, values: Row, j: nat, before: string)
    requires j < 6
    ensures before + FieldsText(labels, values, j) ==
            before + (labels[j] + values[j]) + FieldsText(labels, values, j + 1)
  {
    Glue(before, labels[j] + values[j], FieldsText(labels, values, j + 1));
  }

  lemma SevenFields(labels: Row, values: Row)
    ensures FieldsText(labels, values, 0) ==
            (labels[0] + values[0]) + (labels[1] + values[1]) + (labels[2] + values[2]) + (labels[3] + values[3])
            + (labels[4] + values[4]) + (labels[5] + values[5]) + (labels[6] + values[6])
  {
    assert FieldsText(labels, values, 0) == (labels[0] + values[0]) + FieldsText(labels, values, 1);
    hide FieldsText;
    var f0 := labels[0] + values[0];
    NextField(labels, values, 1, f0);
    var f1 := f0 + (labels[1] + values[1]);
    NextField(labels, values, 2, f1);
    var f2 := f1 + (labels[2] + values[2]);
    NextField(labels, values, 3, f2);
    var f3 := f2 + (labels[3] + values[3]);
    NextField(labels, values, 4, f3);
    var f4 := f3 + (labels[4] + values[4]);
    NextField(labels, values, 5, f4);
    LastField(labels, values);
  }
}
