/** The measurement-mode table of `PotentiostatController`
    (`src/pyBEEP/controller.py`): the nine technique codes with their
    control mode, waveform generator, parameter class and PID flag; the
    case-insensitive lookup; and the parameter validation that
    `apply_measurement` performs with the mode's parameter class before the
    waveform is generated. */
module Registry {
  import opened Common
  import opened Sampling
  import opened WaveformOutputs
  import WaveformsPot
  import WaveformsGal
  import WaveformsOcp

  /** `ModeName`: the technique codes. */
  datatype ModeName = CA | LSV | CV | PSTEP | CP | GS | GCV | STEPSEQ | OCP

  /** The value of a `ModeName` member. */
  function Code(m: ModeName): string
  {
    match m
    case CA => "CA"
    case LSV => "LSV"
    case CV => "CV"
    case PSTEP => "PSTEP"
    case CP => "CP"
    case GS => "GS"
    case GCV => "GCV"
    case STEPSEQ => "STEPSEQ"
    case OCP => "OCP"
  }

  /** `ControlMode`: "POT", "GAL" and "OCP". */
  datatype ControlMode = Potentiostatic | Galvanostatic | OpenCircuit

  /** The waveform generators the table refers to. */
  datatype Generator =
    | ConstantWaveform | LinearSweep | CyclicVoltammetry | PotentialSteps
    | SinglePoint | LinearGalvanostaticSweep | CyclicGalvanostatic | CurrentSteps
    | OcpWaveform

  /** The parameter classes the table refers to. */
  datatype ParamClass =
    | ConstantWaveformParams | LinearSweepParams | CyclicVoltammetryParams | PotentialStepsParams
    | SinglePointParams | LinearGalvanostaticSweepParams | CyclicGalvanostaticParams | CurrentStepsParams
    | OcpParams

  /** One entry of the table: `mode_type`, `waveform_func`, `param_class`
      and `pid`. */
  datatype MeasurementMode = MeasurementMode(modeType: ControlMode, waveformFunc: Generator,
                                             paramClass: ParamClass, pid: bool)

  /** The table's keys in the order the dictionary holds them. */
  const MODE_NAMES: seq<ModeName> := [CA, LSV, CV, PSTEP, CP, GS, GCV, STEPSEQ, OCP]

  /** The table built by the constructor. */
  function Entry(m: ModeName): MeasurementMode
  {
    match m
    case CA => MeasurementMode(Potentiostatic, ConstantWaveform, ConstantWaveformParams, false)
    case LSV => MeasurementMode(Potentiostatic, LinearSweep, LinearSweepParams, false)
    case CV => MeasurementMode(Potentiostatic, CyclicVoltammetry, CyclicVoltammetryParams, false)
    case PSTEP => MeasurementMode(Potentiostatic, PotentialSteps, PotentialStepsParams, false)
    case CP => MeasurementMode(Galvanostatic, SinglePoint, SinglePointParams, true)
    case GS => MeasurementMode(Galvanostatic, LinearGalvanostaticSweep, LinearGalvanostaticSweepParams, true)
    case GCV => MeasurementMode(Galvanostatic, CyclicGalvanostatic, CyclicGalvanostaticParams, true)
    case STEPSEQ => MeasurementMode(Galvanostatic, CurrentSteps, CurrentStepsParams, true)
    case OCP => MeasurementMode(OpenCircuit, OcpWaveform, OcpParams, false)
  }

  /** `get_available_modes`: the codes of the table, in order. */
  function AvailableModes(): (codes: seq<string>)
    ensures |codes| == |MODE_NAMES| && forall i | 0 <= i < |codes| :: codes[i] == Code(MODE_NAMES[i])
  {
    seq(|MODE_NAMES|, i requires 0 <= i < |MODE_NAMES| => Code(MODE_NAMES[i]))
  }

  /** The table has nine entries, one per technique, with nine distinct
      codes; every code is already in upper case. */
  lemma TableShape()
    ensures |MODE_NAMES| == 9 && forall m: ModeName :: m in MODE_NAMES
    ensures forall i, j | 0 <= i < j < |AvailableModes()| :: AvailableModes()[i] != AvailableModes()[j]
    ensures forall m: ModeName :: Upper(Code(m)) == Code(m) && Code(m) in AvailableModes()
  {
    forall i, j | 0 <= i < j < |AvailableModes()| ensures AvailableModes()[i] != AvailableModes()[j] {
      if AvailableModes()[i] == AvailableModes()[j] {
        CodeInjective(MODE_NAMES[i], MODE_NAMES[j]);
      }
    }
    forall m: ModeName ensures m in MODE_NAMES && Upper(Code(m)) == Code(m) && Code(m) in AvailableModes() {
      Listed(m);
      UpperFixesCodes(m);
    }
  }

  lemma Listed(m: ModeName)
    ensures m in MODE_NAMES && Code(m) in AvailableModes()
  {
    var i := match m
      case CA => 0 case LSV => 1 case CV => 2 case PSTEP => 3 case CP => 4
      case GS => 5 case GCV => 6 case STEPSEQ => 7 case OCP => 8;
    assert MODE_NAMES[i] == m;
    assert AvailableModes()[i] == Code(m);
  }

  lemma UpperFixesCodes(m: ModeName)
    ensures Upper(Code(m)) == Code(m)
  {
    var s := Code(m);
    forall k | 0 <= k < |s| ensures UpperChar(s[k]) == [s[k]] {
    }
    UpperOfFixed(s);
  }

  /** PID regulation is used exactly by the galvanostatic entries, which
      are CP, GS, GCV and STEPSEQ. */
  lemma PidExactlyGalvanostatic(m: ModeName)
    ensures Entry(m).pid <==> Entry(m).modeType == Galvanostatic
    ensures Entry(m).pid <==> m in {CP, GS, GCV, STEPSEQ}
  {
  }

  /** Distinct techniques have distinct codes. */
  lemma CodeInjective(m1: ModeName, m2: ModeName)
    requires Code(m1) == Code(m2)
    ensures m1 == m2
  {
    assert |Code(m1)| == |Code(m2)| && Code(m1)[0] == Code(m2)[0];
    if |Code(m1)| >= 2 {
      assert Code(m1)[1] == Code(m2)[1];
    }
  }

  /** The characters whose upper case is plain ASCII text: ASCII itself,
      and `ß`, the dotless `ı`, the long `ſ` and the Latin ligatures
      U+FB00 to U+FB06. */
  predicate UpperToAscii(c: char)
  {
    c as int < 128 || c == '\U{DF}' || c == '\U{131}' || c == '\U{17F}' ||
    (0xFB00 <= c as int <= 0xFB06)
  }

  predicate Ascii(s: string)
  {
    forall k | 0 <= k < |s| :: s[k] as int < 128
  }

  /** `str.upper` on one character. An ASCII lower-case letter becomes its
      capital, and `ß`, `ı`, `ſ` and the ligatures become their ASCII
      capitals, which can be two or three characters long (`ß` becomes
      `SS`, `ﬃ` becomes `FFI`). Any other character is kept: its real upper
      case, like the kept character, contains a character outside ASCII. */
  function UpperChar(c: char): (u: string)
    ensures 1 <= |u| <= 3
    ensures 'a' <= c <= 'z' ==> u == [(c as int - 32) as char]
    ensures c as int < 128 && !('a' <= c <= 'z') ==> u == [c]
    ensures Ascii(u) <==> UpperToAscii(c)
  {
    if 'a' <= c <= 'z' then [(c as int - 32) as char]
    else if c == '\U{DF}' then "SS"
    else if c == '\U{131}' then "I"
    else if c == '\U{17F}' then "S"
    else if c == '\U{FB00}' then "FF"
    else if c == '\U{FB01}' then "FI"
    else if c == '\U{FB02}' then "FL"
    else if c == '\U{FB03}' then "FFI"
    else if c == '\U{FB04}' then "FFL"
    else if c == '\U{FB05}' || c == '\U{FB06}' then "ST"
    else assert [c][0] == c; [c]
  }

  lemma AsciiAppend(a: string, b: string)
    ensures Ascii(a + b) <==> Ascii(a) && Ascii(b)
  {
    assert forall k | 0 <= k < |a| :: (a + b)[k] == a[k];
    assert forall k | 0 <= k < |b| :: (a + b)[|a| + k] == b[k];
  }

  /** `str.upper` on a string: each character's upper case, in order. The
      result is plain ASCII exactly when every character's upper case is. */
  function Upper(s: string): (u: string)
    ensures |s| <= |u| <= 3 * |s|
    ensures Ascii(u) <==> forall k | 0 <= k < |s| :: UpperToAscii(s[k])
  {
    if s == [] then []
    else
      var h, t := UpperChar(s[0]), Upper(s[1..]);
      AsciiAppend(h, t);
      assert forall k | 1 <= k < |s| :: s[k] == s[1..][k - 1];
      h + t
  }

  lemma {:induction false} UpperAppend(a: string, b: string)
    ensures Upper(a + b) == Upper(a) + Upper(b)
  {
    if a == [] {
      assert a + b == b;
    } else {
      assert (a + b)[0] == a[0] && (a + b)[1..] == a[1..] + b;
      UpperAppend(a[1..], b);
      calc {
        Upper(a + b);
        UpperChar(a[0]) + Upper(a[1..] + b);
        UpperChar(a[0]) + (Upper(a[1..]) + Upper(b));
        (UpperChar(a[0]) + Upper(a[1..])) + Upper(b);
      }
    }
  }

  /** A string of characters that upper-case to themselves is left as it is. */
  lemma {:induction false} UpperOfFixed(s: string)
    requires forall k | 0 <= k < |s| :: UpperChar(s[k]) == [s[k]]
    ensures Upper(s) == s
  {
    if s != [] {
      UpperOfFixed(s[1..]);
    }
  }

  /** Every character of an upper-cased string upper-cases to itself. */
  lemma {:induction false} UpperFixed(s: string)
    ensures forall k | 0 <= k < |Upper(s)| :: UpperChar(Upper(s)[k]) == [Upper(s)[k]]
  {
    if s != [] {
      UpperFixed(s[1..]);
      var h, t := UpperChar(s[0]), Upper(s[1..]);
      assert Upper(s) == h + t;
      forall k | 0 <= k < |h| ensures UpperChar(h[k]) == [h[k]] {
      }
      forall k | 0 <= k < |t| ensures (h + t)[|h| + k] == t[k] {
      }
    }
  }

  /** Upper-casing twice changes nothing more. */
  lemma UpperIdempotent(s: string)
    ensures Upper(Upper(s)) == Upper(s)
  {
    UpperFixed(s);
    UpperOfFixed(Upper(s));
  }

  /** `ModeName(value)`: the member with that exact value, if any. */
  function ModeFor(s: string): (r: Option<ModeName>)
    ensures r.Some? ==> Code(r.value) == s
    ensures r.None? ==> forall m: ModeName :: Code(m) != s
  {
    if s == "CA" then Some(CA)
    else if s == "LSV" then Some(LSV)
    else if s == "CV" then Some(CV)
    else if s == "PSTEP" then Some(PSTEP)
    else if s == "CP" then Some(CP)
    else if s == "GS" then Some(GS)
    else if s == "GCV" then Some(GCV)
    else if s == "STEPSEQ" then Some(STEPSEQ)
    else if s == "OCP" then Some(OCP)
    else None
  }

  /** The `ValueError` raised for an unknown mode: the name as given and
      the available codes. */
  datatype ModeError = InvalidMode(mode: string, available: seq<string>)

  /** `_get_mode`: the name is upper-cased, then looked up. */
  function GetMode(mode: string): (r: Result<MeasurementMode, ModeError>)
  {
    match ModeFor(Upper(mode))
    case Some(m) => Ok(Entry(m))
    case None => Err(InvalidMode(mode, AvailableModes()))
  }

  /** The lookup succeeds exactly for the names whose upper-case form is an
      available code, and then yields that code's entry; any other name
      raises the error that lists every available code. */
  lemma GetModeSpec(mode: string)
    ensures GetMode(mode).Ok? <==> Upper(mode) in AvailableModes()
    ensures forall m: ModeName :: Upper(mode) == Code(m) ==> GetMode(mode) == Ok(Entry(m))
    ensures GetMode(mode).Err? ==> GetMode(mode).error == InvalidMode(mode, AvailableModes())
  {
    var u := Upper(mode);
    if u in AvailableModes() {
      var i :| 0 <= i < |AvailableModes()| && AvailableModes()[i] == u;
      assert Code(MODE_NAMES[i]) == u;
    }
    if ModeFor(u).Some? {
      Listed(ModeFor(u).value);
    }
    forall m: ModeName | u == Code(m) ensures GetMode(mode) == Ok(Entry(m)) {
      CodeInjective(m, ModeFor(u).value);
    }
  }

  /** The lookup ignores letter case: a name and its upper-case form find
      the same entry or both fail. */
  lemma GetModeIgnoresCase(mode: string)
    ensures GetMode(mode).Ok? == GetMode(Upper(mode)).Ok?
    ensures GetMode(mode).Ok? ==> GetMode(mode) == GetMode(Upper(mode))
  {
    UpperIdempotent(mode);
  }

  /** Python's upper case reaches the codes from outside ASCII too: the long
      `ſ` upper-cases to `S`, so `"gſ"` names GS. */
  lemma GetModeLongS()
    ensures GetMode("g\U{17F}") == Ok(Entry(GS))
  {
    assert "g\U{17F}"[0] == 'g' && "g\U{17F}"[1..] == "\U{17F}";
    assert "\U{17F}"[0] == '\U{17F}' && "\U{17F}"[1..] == [];
    assert Upper("g\U{17F}") == "GS";
  }

  /** The ligature `ﬆ` upper-cases to the two letters `ST`, so the
      four-character `"pﬆep"` names the five-letter PSTEP. */
  lemma GetModeLigature()
    ensures GetMode("p\U{FB06}ep") == Ok(Entry(PSTEP))
  {
    var s := "p\U{FB06}ep";
    assert s[1..] == "\U{FB06}ep" && s[1..][1..] == "ep" && "ep"[1..] == "p" && "p"[1..] == [];
    assert Upper("p") == "P";
    assert Upper("ep") == "EP";
    assert Upper("\U{FB06}ep") == "STEP";
    assert Upper(s) == "PSTEP";
  }

  /** A letter whose upper case lies outside ASCII names no mode. */
  lemma GetModeAccented()
    ensures GetMode("\U{E9}") == Err(InvalidMode("\U{E9}", AvailableModes()))
  {
    assert "\U{E9}"[0] == '\U{E9}' && "\U{E9}"[1..] == [];
    assert Upper("\U{E9}") == "\U{E9}";
  }

  /** A name is found only when the upper case of each of its characters is
      plain ASCII, so the characters whose upper case is kept as they are
      never decide a lookup. */
  lemma GetModeNeedsAsciiUpper(mode: string)
    ensures GetMode(mode).Ok? ==> forall k | 0 <= k < |mode| :: UpperToAscii(mode[k])
  {
    if GetMode(mode).Ok? {
      var m := ModeFor(Upper(mode)).value;
      assert Upper(mode) == Code(m);
      assert Ascii(Code(m)) by {
        match m
        case CA => case LSV => case CV => case PSTEP => case CP =>
        case GS => case GCV => case STEPSEQ => case OCP =>
      }
    }
  }

  /** `is_pid_active`, `get_waveform_func` and `get_mode_params`, each
      raising the lookup's error for an unknown mode. */
  function IsPidActive(mode: string): (r: Result<bool, ModeError>)
    ensures GetMode(mode).Ok? ==> r == Ok(GetMode(mode).value.pid)
    ensures GetMode(mode).Err? ==> r == Err(GetMode(mode).error)
  {
    match GetMode(mode)
    case Ok(entry) => Ok(entry.pid)
    case Err(e) => Err(e)
  }

  function GetWaveformFunc(mode: string): (r: Result<Generator, ModeError>)
    ensures GetMode(mode).Ok? ==> r == Ok(GetMode(mode).value.waveformFunc)
    ensures GetMode(mode).Err? ==> r == Err(GetMode(mode).error)
  {
    match GetMode(mode)
    case Ok(entry) => Ok(entry.waveformFunc)
    case Err(e) => Err(e)
  }

  function GetModeParams(mode: string): (r: Result<seq<(string, FieldKind)>, ModeError>)
    ensures GetMode(mode).Ok? ==> r == Ok(Fields(GetMode(mode).value.paramClass))
    ensures GetMode(mode).Err? ==> r == Err(GetMode(mode).error)
  {
    match GetMode(mode)
    case Ok(entry) => Ok(Fields(entry.paramClass))
    case Err(e) => Err(e)
  }

  /** A mode is PID-regulated exactly when its code names a galvanostatic
      technique, whatever the case it is written in. */
  lemma IsPidActiveSpec(mode: string)
    ensures IsPidActive(mode).Ok? <==> Upper(mode) in AvailableModes()
    ensures IsPidActive(mode) == Ok(true) <==> Upper(mode) in ["CP", "GS", "GCV", "STEPSEQ"]
  {
    GetModeSpec(mode);
    var u := Upper(mode);
    if ModeFor(u).Some? {
      PidExactlyGalvanostatic(ModeFor(u).value);
    }
  }

  // Parameter classes and their validation.

  /** The annotation of a parameter field. */
  datatype FieldKind = FloatField | IntField | FloatListField

  /** The fields of each parameter class, in declaration order. */
  function Fields(pc: ParamClass): seq<(string, FieldKind)>
  {
    match pc
    case ConstantWaveformParams => [("potential", FloatField), ("duration", FloatField)]
    case PotentialStepsParams => [("potentials", FloatListField), ("step_duration", FloatField)]
    case LinearSweepParams => [("start", FloatField), ("end", FloatField), ("scan_rate", FloatField)]
    case CyclicVoltammetryParams =>
      [("start", FloatField), ("vertex1", FloatField), ("vertex2", FloatField), ("end", FloatField),
       ("scan_rate", FloatField), ("cycles", IntField)]
    case SinglePointParams => [("current", FloatField), ("duration", FloatField)]
    case CurrentStepsParams => [("currents", FloatListField), ("step_duration", FloatField)]
    case LinearGalvanostaticSweepParams =>
      [("start", FloatField), ("end", FloatField), ("num_steps", IntField), ("step_duration", FloatField)]
    case CyclicGalvanostaticParams =>
      [("start", FloatField), ("vertex1", FloatField), ("vertex2", FloatField), ("end", FloatField),
       ("num_steps", IntField), ("step_duration", FloatField), ("cycles", IntField)]
    case OcpParams => [("duration", FloatField)]
  }

  /** A value of the `params` dictionary. */
  datatype ParamValue = Real(r: real) | Integer(n: int) | Text(s: string) | List(items: seq<ParamValue>)

  /** A validated field value. */
  datatype Arg = RealArg(r: real) | IntArg(n: int) | ListArg(xs: seq<real>)

  function KindOf(a: Arg): FieldKind
  {
    match a
    case RealArg(_) => FloatField
    case IntArg(_) => IntField
    case ListArg(_) => FloatListField
  }

  /** A `float` field takes a number. */
  function AsFloat(v: ParamValue): Option<real>
  {
    match v
    case Real(r) => Some(r)
    case Integer(n) => Some(n as real)
    case _ => None
  }

  /** An `int` field takes an integer, or a float without a fractional
      part. */
  function AsInt(v: ParamValue): Option<int>
  {
    match v
    case Integer(n) => Some(n)
    case Real(r) => if r.Floor as real == r then Some(r.Floor) else None
    case _ => None
  }

  /** A `List[float]` field takes a list of numbers. */
  function AsFloatList(items: seq<ParamValue>): (r: Option<seq<real>>)
    ensures r.Some? <==> forall k | 0 <= k < |items| :: AsFloat(items[k]).Some?
    ensures r.Some? ==> |r.value| == |items| && forall k | 0 <= k < |items| :: r.value[k] == AsFloat(items[k]).value
  {
    if items == [] then Some([])
    else match (AsFloat(items[0]), AsFloatList(items[1..]))
      case (Some(x), Some(xs)) => Some([x] + xs)
      case _ => None
  }

  function Coerce(kind: FieldKind, v: ParamValue): (r: Option<Arg>)
    ensures r.Some? ==> KindOf(r.value) == kind
  {
    match kind
    case FloatField => (match AsFloat(v) case Some(x) => Some(RealArg(x)) case None => None)
    case IntField => (match AsInt(v) case Some(n) => Some(IntArg(n)) case None => None)
    case FloatListField =>
      if v.List? then (match AsFloatList(v.items) case Some(xs) => Some(ListArg(xs)) case None => None)
      else None
  }

  /** Field by field, in order: a missing or ill-typed field fails the
      validation; fields the class does not declare are ignored. */
  function ValidateFields(fields: seq<(string, FieldKind)>, params: map<string, ParamValue>): (r: Option<seq<Arg>>)
    ensures r.Some? <==> forall k | 0 <= k < |fields| ::
      fields[k].0 in params && Coerce(fields[k].1, params[fields[k].0]).Some?
    ensures r.Some? ==> |r.value| == |fields| && forall k | 0 <= k < |fields| ::
      fields[k].0 in params && r.value[k] == Coerce(fields[k].1, params[fields[k].0]).value
  {
    if fields == [] then Some([])
    else
      var head := if fields[0].0 in params then Coerce(fields[0].1, params[fields[0].0]) else None;
      var tail := ValidateFields(fields[1..], params);
      if head.Some? && tail.Some? then Some([head.value] + tail.value) else None
  }

  /** The validated parameter objects, one constructor per class. */
  datatype Params =
    | ConstantArgs(potential: real, duration: real)
    | PotentialStepsArgs(potentials: seq<real>, stepDuration: real)
    | LinearSweepArgs(start: real, end: real, scanRate: real)
    | CyclicVoltammetryArgs(start: real, vertex1: real, vertex2: real, end: real, scanRate: real, cycles: int)
    | SinglePointArgs(current: real, duration: real)
    | CurrentStepsArgs(currents: seq<real>, stepDuration: real)
    | LinearGalvanostaticSweepArgs(start: real, end: real, numSteps: int, stepDuration: real)
    | CyclicGalvanostaticArgs(start: real, vertex1: real, vertex2: real, end: real,
                              numSteps: int, stepDuration: real, cycles: int)
    | OcpArgs(duration: real)

  /** Validated field values, one of the right kind per field. */
  predicate Fits(args: seq<Arg>, fields: seq<(string, FieldKind)>)
  {
    |args| == |fields| && forall k | 0 <= k < |args| :: KindOf(args[k]) == fields[k].1
  }

  function Build(pc: ParamClass, args: seq<Arg>): Params
    requires Fits(args, Fields(pc))
  {
    match pc
    case ConstantWaveformParams => ConstantArgs(args[0].r, args[1].r)
    case PotentialStepsParams => PotentialStepsArgs(args[0].xs, args[1].r)
    case LinearSweepParams => LinearSweepArgs(args[0].r, args[1].r, args[2].r)
    case CyclicVoltammetryParams =>
      CyclicVoltammetryArgs(args[0].r, args[1].r, args[2].r, args[3].r, args[4].r, args[5].n)
    case SinglePointParams => SinglePointArgs(args[0].r, args[1].r)
    case CurrentStepsParams => CurrentStepsArgs(args[0].xs, args[1].r)
    case LinearGalvanostaticSweepParams =>
      LinearGalvanostaticSweepArgs(args[0].r, args[1].r, args[2].n, args[3].r)
    case CyclicGalvanostaticParams =>
      CyclicGalvanostaticArgs(args[0].r, args[1].r, args[2].r, args[3].r, args[4].n, args[5].r, args[6].n)
    case OcpParams => OcpArgs(args[0].r)
  }

  /** The names of a class's fields, as the error message lists them. */
  function FieldNames(pc: ParamClass): (names: seq<string>)
    ensures |names| == |Fields(pc)| && forall k | 0 <= k < |names| :: names[k] == Fields(pc)[k].0
  {
    var fs := Fields(pc);
    seq(|fs|, k requires 0 <= k < |fs| => fs[k].0)
  }

  /** `param_class(**params)`: the parameter object, or the names of the
      expected fields when validation fails. */
  function Validate(pc: ParamClass, params: map<string, ParamValue>): (r: Result<Params, seq<string>>)
    ensures r.Err? ==> r.error == FieldNames(pc)
    ensures r.Ok? <==> forall k | 0 <= k < |Fields(pc)| ::
      Fields(pc)[k].0 in params && Coerce(Fields(pc)[k].1, params[Fields(pc)[k].0]).Some?
  {
    match ValidateFields(Fields(pc), params)
    case Some(args) => Ok(Build(pc, args))
    case None => Err(FieldNames(pc))
  }

  // Waveform generation.

  /** Why `waveform_func(**param_obj.model_dump())` can fail: the
      generator raises, or it is handed a parameter object it does not
      take. */
  datatype GenerateError = GeneratorFailed(error: WaveError) | SignatureMismatch

  function Lift(r: Result<Waveform, WaveError>): (l: Result<Waveform, GenerateError>)
    ensures l != Err(SignatureMismatch)
  {
    match r
    case Ok(w) => Ok(w)
    case Err(e) => Err(GeneratorFailed(e))
  }

  /** The generator called with the fields of the parameter object.  The
      cyclic generators are methods; their specification functions stand
      for them here. */
  function Generate(g: Generator, p: Params): Result<Waveform, GenerateError>
  {
    match (g, p)
    case (ConstantWaveform, ConstantArgs(potential, duration)) =>
      Lift(WaveformsPot.ConstantWaveform(potential, duration))
    case (PotentialSteps, PotentialStepsArgs(potentials, stepDuration)) =>
      Lift(WaveformsPot.PotentialSteps(potentials, stepDuration))
    case (LinearSweep, LinearSweepArgs(start, end, scanRate)) =>
      Lift(WaveformsPot.LinearSweep(start, end, scanRate))
    case (CyclicVoltammetry, CyclicVoltammetryArgs(start, vertex1, vertex2, end, scanRate, cycles)) =>
      Lift(WaveformsPot.CyclicVoltammetrySpec(start, vertex1, vertex2, end, scanRate, cycles))
    case (SinglePoint, SinglePointArgs(current, duration)) =>
      Lift(WaveformsGal.SinglePoint(current, duration))
    case (CurrentSteps, CurrentStepsArgs(currents, stepDuration)) =>
      Lift(WaveformsGal.CurrentSteps(currents, stepDuration))
    case (LinearGalvanostaticSweep, LinearGalvanostaticSweepArgs(start, end, numSteps, stepDuration)) =>
      Lift(WaveformsGal.LinearGalvanostaticSweep(start, end, numSteps, stepDuration))
    case (CyclicGalvanostatic, CyclicGalvanostaticArgs(start, vertex1, vertex2, end, numSteps, stepDuration, cycles)) =>
      Lift(WaveformsGal.CyclicGalvanostaticSpec(start, vertex1, vertex2, numSteps, stepDuration, cycles, Some(end)))
    case (OcpWaveform, OcpArgs(duration)) =>
      Ok(WaveformsOcp.OcpWaveform(duration))
    case _ => Err(SignatureMismatch)
  }

  /** Every entry pairs its generator with that generator's own parameter
      class: a validated parameter object is always accepted. */
  lemma EntrySignature(m: ModeName, params: map<string, ParamValue>)
    requires Validate(Entry(m).paramClass, params).Ok?
    ensures Generate(Entry(m).waveformFunc, Validate(Entry(m).paramClass, params).value) != Err(SignatureMismatch)
  {
    var pc := Entry(m).paramClass;
    BuildMatches(pc, ValidateFields(Fields(pc), params).value);
    GenerateAccepts(m, Validate(pc, params).value);
  }

  /** A parameter object of the entry's own class reaches its generator. */
  lemma GenerateAccepts(m: ModeName, p: Params)
    requires var pc := Entry(m).paramClass;
      (pc == ConstantWaveformParams <==> p.ConstantArgs?) &&
      (pc == PotentialStepsParams <==> p.PotentialStepsArgs?) &&
      (pc == LinearSweepParams <==> p.LinearSweepArgs?) &&
      (pc == CyclicVoltammetryParams <==> p.CyclicVoltammetryArgs?) &&
      (pc == SinglePointParams <==> p.SinglePointArgs?) &&
      (pc == CurrentStepsParams <==> p.CurrentStepsArgs?) &&
      (pc == LinearGalvanostaticSweepParams <==> p.LinearGalvanostaticSweepArgs?) &&
      (pc == CyclicGalvanostaticParams <==> p.CyclicGalvanostaticArgs?) &&
      (pc == OcpParams <==> p.OcpArgs?)
    ensures Generate(Entry(m).waveformFunc, p) != Err(SignatureMismatch)
  {
  }

  /** The parameter object has the constructor of its class. */
  lemma BuildMatches(pc: ParamClass, args: seq<Arg>)
    requires Fits(args, Fields(pc))
    ensures var p := Build(pc, args);
      (pc == ConstantWaveformParams <==> p.ConstantArgs?) &&
      (pc == PotentialStepsParams <==> p.PotentialStepsArgs?) &&
      (pc == LinearSweepParams <==> p.LinearSweepArgs?) &&
      (pc == CyclicVoltammetryParams <==> p.CyclicVoltammetryArgs?) &&
      (pc == SinglePointParams <==> p.SinglePointArgs?) &&
      (pc == CurrentStepsParams <==> p.CurrentStepsArgs?) &&
      (pc == LinearGalvanostaticSweepParams <==> p.LinearGalvanostaticSweepArgs?) &&
      (pc == CyclicGalvanostaticParams <==> p.CyclicGalvanostaticArgs?) &&
      (pc == OcpParams <==> p.OcpArgs?)
  {
  }

  /** The generator's output has the attributes its control mode's
      procedure reads: the applied potential for POT, the current steps for
      GAL, the time vector for OCP; and it has the common waveform shape. */
  lemma EntryOutputs(m: ModeName, p: Params)
    ensures var r := Generate(Entry(m).waveformFunc, p);
      (r.Ok? && Entry(m).modeType == Potentiostatic ==>
        r.value.Poten? || r.value.SteppedPoten? || r.value.CyclicPoten?) &&
      (r.Ok? && Entry(m).modeType == Galvanostatic ==> r.value.Galvano? || r.value.CyclicGalvano?) &&
      (r.Ok? && Entry(m).modeType == OpenCircuit ==> r.value.Base?) &&
      (r.Ok? ==> WellFormed(r.value, POINT_INTERVAL))
  {
  }
}
