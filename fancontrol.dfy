/** The control sequencing of the script: `main` puts both fans under
    manual control and runs `loop` pass after pass; the exit hook
    `resume_auto_fan_control` hands both back to the firmware. The sysfs
    tree is a map from path to contents. What the two sensor reads of a
    pass return, or raise, is the input of that pass; `Sensors` computes
    it from the sensor texts. */
module FanControl {
  import opened Wrappers
  import opened PyText
  import opened Curve
  import opened Sensors

  const CpuPwmEnable: string := "/sys/devices/platform/system76/hwmon/hwmon1/pwm1_enable"
  const CpuPwmControl: string := "/sys/devices/platform/system76/hwmon/hwmon1/pwm1"
  const GpuPwmEnable: string := "/sys/devices/platform/system76/hwmon/hwmon1/pwm2_enable"
  const GpuPwmControl: string := "/sys/devices/platform/system76/hwmon/hwmon1/pwm2"

  /** Who drives the fans: the firmware ("2" in pwm*_enable) or this
      controller ("1"). */
  datatype Mode = Automatic | Manual

  /** One `_write(file, s)`: the file and its new contents. */
  datatype FileWrite = FileWrite(path: string, text: string)

  /** What `read_cpu_temp()` and `read_gpu_temp()` return, or raise,
      during one pass: millidegrees for the CPU, whole degrees for the GPU. */
  datatype Readings = Readings(cpu: Result<int, Fault>, gpu: Result<int, Fault>)

  /** What one pass reads: the CPU sensor file's text (None when it cannot
      be read) and the lines `nvidia-smi` prints. */
  datatype Sample = Sample(cpuSensor: Option<string>, smiLines: seq<string>)

  /** The writes one pass makes, and the exception that ended it early, if any. */
  datatype PassResult = PassResult(writes: seq<FileWrite>, fault: Option<Fault>)

  /** The writes of a run of passes, how many passes completed, and the
      exception that ended the run, if any. */
  datatype RunResult = RunResult(writes: seq<FileWrite>, passes: nat, fault: Option<Fault>)

  predicate IsPwmControl(path: string) {
    path == CpuPwmControl || path == GpuPwmControl
  }

  /** The text of a duty: `str()` of an integer 0..255. */
  ghost predicate IsDutyText(text: string) {
    exists d :: 0 <= d <= FullScale && text == ShowInt(d)
  }

  /** A duty text reads back, with `int()`, as a duty 0..255. */
  lemma DutyTextReadsBack(text: string)
    requires IsDutyText(text)
    ensures ParseInt(text).Some? && 0 <= ParseInt(text).value <= FullScale
  {
    var d :| 0 <= d <= FullScale && text == ShowInt(d);
    assert Pow10(3) == 1000;
    ShowNatBelowPow10(d, 3);
    ParseShowIntBare(d);
  }

  /** `main`'s first two writes, and the exit hook's two writes. */
  const EnableWrites := [FileWrite(CpuPwmEnable, "1"), FileWrite(GpuPwmEnable, "1")]
  const RestoreWrites := [FileWrite(CpuPwmEnable, "2"), FileWrite(GpuPwmEnable, "2")]

  /** The file contents after a sequence of writes. */
  function Apply(files: map<string, string>, ws: seq<FileWrite>): map<string, string> {
    if ws == [] then files
    else Apply(files, ws[..|ws| - 1])[ws[|ws| - 1].path := ws[|ws| - 1].text]
  }

  /** The last text a sequence of writes gave to `path`, if it wrote it at all. */
  function LastWritten(ws: seq<FileWrite>, path: string): Option<string> {
    if ws == [] then None
    else if ws[|ws| - 1].path == path then Some(ws[|ws| - 1].text)
    else LastWritten(ws[..|ws| - 1], path)
  }

  /** After these writes both enable files were last set to manual. */
  predicate ManualAfter(ws: seq<FileWrite>) {
    LastWritten(ws, CpuPwmEnable) == Some("1") && LastWritten(ws, GpuPwmEnable) == Some("1")
  }

  /** Every PWM control write happens while both fans are under manual
      control: each one comes after writes that left both enable files at "1". */
  predicate PwmOnlyWhileManual(ws: seq<FileWrite>) {
    ws == [] ||
    var before := ws[..|ws| - 1];
    && PwmOnlyWhileManual(before)
    && (IsPwmControl(ws[|ws| - 1].path) ==> ManualAfter(before))
  }

  /** The two reads of a pass on a sample. */
  function Read(s: Sample): Readings {
    Readings(ReadCpuTemp(s.cpuSensor), ReadGpuTemp(s.smiLines))
  }

  /** One `loop()`: read the CPU, write its duty, read the GPU, write its
      duty. A failed read raises, so the rest of the pass does not happen
      (the GPU reading is not looked at when the CPU read raised). The
      debug print of the GPU reading formats it with `%f`, which converts
      it to a float: a reading no double holds raises OverflowError there,
      after the CPU write and before the GPU write. */
  function Pass(r: Readings): PassResult {
    match r.cpu
    case Failure(e) => PassResult([], Some(e))
    case Success(milli) =>
      var cpuWrite := FileWrite(CpuPwmControl, ShowInt(Duty(CpuCurve, milli)));
      match r.gpu
      case Failure(e) => PassResult([cpuWrite], Some(e))
      case Success(degrees) =>
        if !FitsDouble(degrees) then PassResult([cpuWrite], Some(FloatOverflow))
        else PassResult([cpuWrite, FileWrite(GpuPwmControl, ShowInt(Duty(GpuCurve, 1000 * degrees)))], None)
  }

  /** `while True: loop()` over the readings of successive passes: passes
      run one after another until the readings end or a pass raises. */
  function Run(rs: seq<Readings>): RunResult {
    if rs == [] then RunResult([], 0, None)
    else
      var p := Pass(rs[0]);
      if p.fault.Some? then RunResult(p.writes, 0, p.fault)
      else
        var rest := Run(rs[1..]);
        RunResult(p.writes + rest.writes, rest.passes + 1, rest.fault)
  }

  /** Everything the script writes: `main`, its passes, then the exit hook. */
  function ScriptWrites(rs: seq<Readings>): seq<FileWrite> {
    EnableWrites + Run(rs).writes + RestoreWrites
  }

  // ---------------------------------------------------------------- lemmas

  /** The four files are four different paths. */
  lemma PathsDistinct()
    ensures CpuPwmEnable != GpuPwmEnable && CpuPwmControl != GpuPwmControl
    ensures CpuPwmEnable != CpuPwmControl && CpuPwmEnable != GpuPwmControl
    ensures GpuPwmEnable != CpuPwmControl && GpuPwmEnable != GpuPwmControl
  {
    assert CpuPwmEnable[47] != GpuPwmEnable[47];
    assert CpuPwmControl[47] != GpuPwmControl[47];
  }

  lemma {:induction false} ApplyConcat(files: map<string, string>, a: seq<FileWrite>, b: seq<FileWrite>)
    ensures Apply(files, a + b) == Apply(Apply(files, a), b)
  {
    if b == [] {
      assert a + b == a;
    } else {
      assert (a + b)[..|a + b| - 1] == a + b[..|b| - 1];
      ApplyConcat(files, a, b[..|b| - 1]);
    }
  }

  lemma ApplyTwo(files: map<string, string>, w1: FileWrite, w2: FileWrite)
    ensures Apply(files, [w1]) == files[w1.path := w1.text]
    ensures Apply(files, [w1, w2]) == files[w1.path := w1.text][w2.path := w2.text]
  {
    assert [w1, w2][..1] == [w1];
    assert [w1][..0] == [];
  }

  /** A path holds the last text written to it; a path never written keeps
      its old contents. */
  lemma {:induction false} ApplyHoldsLastWritten(files: map<string, string>, ws: seq<FileWrite>, path: string)
    ensures LastWritten(ws, path).Some? ==>
      path in Apply(files, ws) && Apply(files, ws)[path] == LastWritten(ws, path).value
    ensures LastWritten(ws, path).None? ==>
      (path in Apply(files, ws) <==> path in files) &&
      (path in files ==> Apply(files, ws)[path] == files[path])
  {
    if ws != [] {
      ApplyHoldsLastWritten(files, ws[..|ws| - 1], path);
    }
  }

  /** Writes to other paths do not change what a path was last set to. */
  lemma {:induction false} LastWrittenSkips(ws: seq<FileWrite>, extra: seq<FileWrite>, path: string)
    requires forall k :: 0 <= k < |extra| ==> extra[k].path != path
    ensures LastWritten(ws + extra, path) == LastWritten(ws, path)
  {
    if extra == [] {
      assert ws + extra == ws;
    } else {
      assert (ws + extra)[..|ws + extra| - 1] == ws + extra[..|extra| - 1];
      LastWrittenSkips(ws, extra[..|extra| - 1], path);
    }
  }

  /** The invariant survives one more write, provided a PWM write comes
      while the fans are manual. */
  lemma AppendWrite(ws: seq<FileWrite>, w: FileWrite)
    requires PwmOnlyWhileManual(ws)
    requires IsPwmControl(w.path) ==> ManualAfter(ws)
    ensures PwmOnlyWhileManual(ws + [w])
  {
    assert (ws + [w])[..|ws|] == ws;
  }

  /** The invariant read position by position: the writes before any PWM
      write left both enable files at "1". */
  lemma {:induction false} ManualBeforeEachPwm(ws: seq<FileWrite>, k: nat)
    requires PwmOnlyWhileManual(ws)
    requires k < |ws| && IsPwmControl(ws[k].path)
    ensures ManualAfter(ws[..k])
  {
    var before := ws[..|ws| - 1];
    if k < |ws| - 1 {
      assert before[k] == ws[k] && before[..k] == ws[..k];
      ManualBeforeEachPwm(before, k);
    }
  }

  /** One pass writes the CPU duty and then the GPU duty, nothing else; a
      CPU read failure writes nothing, a GPU read failure only the CPU
      duty; each text written is the curve's duty for what was read. */
  lemma PassShape(r: Readings)
    ensures var p := Pass(r);
      && |p.writes| <= 2
      && (p.fault.None? <==> |p.writes| == 2)
      && (p.writes == [] <==> r.cpu.Failure?)
      && (p.fault.None? <==> r.cpu.Success? && r.gpu.Success? && FitsDouble(r.gpu.value))
      && (forall k :: 0 <= k < |p.writes| ==>
            && p.writes[k].path == (if k == 0 then CpuPwmControl else GpuPwmControl)
            && IsDutyText(p.writes[k].text))
    ensures var p := Pass(r); |p.writes| >= 1 ==>
      p.writes[0].text == ShowInt(Duty(CpuCurve, r.cpu.value))
    ensures var p := Pass(r); |p.writes| == 2 ==>
      p.writes[1].text == ShowInt(Duty(GpuCurve, 1000 * r.gpu.value))
  {
    match r.cpu
    case Failure(_) =>
    case Success(milli) =>
      var d := Duty(CpuCurve, milli);
      assert IsDutyText(ShowInt(d)) by { DutyInRange(CpuCurve, milli); }
      match r.gpu
      case Failure(_) =>
      case Success(degrees) =>
        var d' := Duty(GpuCurve, 1000 * degrees);
        assert IsDutyText(ShowInt(d')) by { DutyInRange(GpuCurve, 1000 * degrees); }
  }

  /** One pass on sensor texts: a CPU sensor that cannot be read, or whose
      integer a double cannot hold, raises before anything is written (a
      ValueError when that integer has more digits than `int()` converts,
      an OverflowError otherwise); a CPU
      sensor holding `str(n)` otherwise gets the CPU curve's duty for n,
      then the GPU read decides the rest: a GPU fault, or a GPU reading no
      double holds, raises after the CPU write. */
  lemma SamplePass(cpuSensor: Option<string>, n: int, w1: string, w2: string, lines: seq<string>)
    requires AllIntSpace(w1) && AllIntSpace(w2)
    requires cpuSensor.None? || cpuSensor == Some(w1 + ShowInt(n) + w2)
    ensures var p, gpu := Pass(Read(Sample(cpuSensor, lines))), ReadGpuTemp(lines);
      && (cpuSensor.None? ==> p == PassResult([], Some(SensorUnreadable)))
      && (cpuSensor.Some? && (n <= -FloatLimit || FloatLimit <= n) ==>
            p == PassResult([], Some(if Digits(n) <= MaxStrDigits then FloatOverflow else NotNumeric)))
      && (cpuSensor.Some? && -FloatLimit < n < FloatLimit ==>
            var cpuWrite := FileWrite(CpuPwmControl, ShowInt(Duty(CpuCurve, n)));
            && (gpu.Failure? ==> p == PassResult([cpuWrite], Some(gpu.error)))
            && (gpu.Success? && !FitsDouble(gpu.value) ==> p == PassResult([cpuWrite], Some(FloatOverflow)))
            && (gpu.Success? && FitsDouble(gpu.value) ==>
                  p == PassResult([cpuWrite, FileWrite(GpuPwmControl, ShowInt(Duty(GpuCurve, 1000 * gpu.value)))], None)))
  {
    if cpuSensor.Some? {
      if -FloatLimit < n < FloatLimit {
        CpuReadsWrittenValue(n, w1, w2);
      } else {
        CpuRejectsHuge(n, w1, w2);
      }
    }
  }

  /** CPU and GPU duty writes alternately, CPU first, each text a duty 0..255. */
  ghost predicate Alternating(ws: seq<FileWrite>) {
    forall k :: 0 <= k < |ws| ==>
      && ws[k].path == (if k % 2 == 0 then CpuPwmControl else GpuPwmControl)
      && IsDutyText(ws[k].text)
  }

  lemma AlternatingPrepend(p: seq<FileWrite>, r: seq<FileWrite>)
    requires |p| == 2 && Alternating(p) && Alternating(r)
    ensures Alternating(p + r)
  {
    forall k | 0 <= k < |p + r|
      ensures (p + r)[k].path == (if k % 2 == 0 then CpuPwmControl else GpuPwmControl)
      ensures IsDutyText((p + r)[k].text)
    {
      if k >= 2 {
        assert (p + r)[k] == r[k - 2];
        assert k % 2 == (k - 2) % 2;
      }
    }
  }

  /** A run completes every pass unless a pass raised; each completed pass
      adds two writes, and a raising pass adds at most its CPU write. */
  lemma {:induction false} RunCounts(rs: seq<Readings>)
    ensures var r := Run(rs);
      && r.passes <= |rs|
      && (r.fault.None? <==> r.passes == |rs|)
      && 2 * r.passes <= |r.writes| <= 2 * r.passes + 1
  {
    if rs != [] {
      PassShape(rs[0]);
      if Pass(rs[0]).fault.None? {
        RunCounts(rs[1..]);
      }
    }
  }

  /** A run writes CPU and GPU duties alternately, CPU first, every one of
      them 0..255. */
  lemma PassAlternates(r: Readings)
    ensures Alternating(Pass(r).writes)
    ensures Pass(r).fault.None? ==> |Pass(r).writes| == 2
  {
    PassShape(r);
  }

  lemma {:induction false} RunAlternates(rs: seq<Readings>)
    ensures Alternating(Run(rs).writes)
  {
    if rs != [] {
      var p := Pass(rs[0]);
      PassAlternates(rs[0]);
      if p.fault.None? {
        RunAlternates(rs[1..]);
        AlternatingPrepend(p.writes, Run(rs[1..]).writes);
      }
    }
  }

  /** The run from pass i on is pass i followed, if it did not raise, by
      the run from pass i + 1 on. */
  lemma RunStep(rs: seq<Readings>, i: nat)
    requires i < |rs|
    ensures var p, r := Pass(rs[i]), Run(rs[i..]);
      if p.fault.Some? then r == RunResult(p.writes, 0, p.fault)
      else r == RunResult(p.writes + Run(rs[i + 1..]).writes, Run(rs[i + 1..]).passes + 1, Run(rs[i + 1..]).fault)
  {
    assert rs[i..][0] == rs[i] && rs[i..][1..] == rs[i + 1..];
  }

  /** What `main`'s loop keeps: the writes so far followed by the rest of
      the run are the whole run. One more pass that does not raise keeps it. */
  lemma RunAdvance(rs: seq<Readings>, i: nat, done: seq<FileWrite>, total: seq<FileWrite>)
    requires i < |rs| && Pass(rs[i]).fault.None?
    requires done + Run(rs[i..]).writes == total
    ensures (done + Pass(rs[i]).writes) + Run(rs[i + 1..]).writes == total
    ensures Run(rs[i..]).passes == Run(rs[i + 1..]).passes + 1
    ensures Run(rs[i..]).fault == Run(rs[i + 1..]).fault
  {
    RunStep(rs, i);
    var p, r := Pass(rs[i]).writes, Run(rs[i + 1..]).writes;
    assert (done + p) + r == done + (p + r);
  }

  /** A pass that raises ends the run there. */
  lemma RunStops(rs: seq<Readings>, i: nat, done: seq<FileWrite>, total: seq<FileWrite>)
    requires i < |rs| && Pass(rs[i]).fault.Some?
    requires done + Run(rs[i..]).writes == total
    ensures done + Pass(rs[i]).writes == total
    ensures Run(rs[i..]).passes == 0
    ensures Run(rs[i..]).fault == Pass(rs[i]).fault
  {
    RunStep(rs, i);
  }

  /** `main`'s two enable writes leave both fans manual. */
  lemma ManualAfterEnable(h0: seq<FileWrite>)
    ensures ManualAfter(h0 + EnableWrites)
  {
    PathsDistinct();
    var h := h0 + [EnableWrites[0]];
    assert h0 + EnableWrites == h + [EnableWrites[1]];
    assert h[..|h| - 1] == h0;
  }

  /** `main`'s enable writes, from the start, keep the invariant. */
  lemma EnableSafe()
    ensures PwmOnlyWhileManual(EnableWrites) && ManualAfter(EnableWrites)
  {
    PathsDistinct();
    var w0, w1 := FileWrite(CpuPwmEnable, "1"), FileWrite(GpuPwmEnable, "1");
    AppendWrite([], w0);
    assert [] + [w0] == [w0];
    AppendWrite([w0], w1);
    assert [w0] + [w1] == EnableWrites;
    ManualAfterEnable([]);
    assert [] + EnableWrites == EnableWrites;
  }

  /** Writes that are all PWM writes, made after the fans went manual,
      keep the invariant and keep the fans manual. */
  lemma {:induction false} PwmWritesStayManual(ws: seq<FileWrite>, pwm: seq<FileWrite>)
    requires PwmOnlyWhileManual(ws) && ManualAfter(ws)
    requires forall j :: 0 <= j < |pwm| ==> IsPwmControl(pwm[j].path)
    ensures PwmOnlyWhileManual(ws + pwm) && ManualAfter(ws + pwm)
  {
    PathsDistinct();
    if pwm == [] {
      assert ws + pwm == ws;
    } else {
      var init := pwm[..|pwm| - 1];
      PwmWritesStayManual(ws, init);
      assert (ws + pwm)[..|ws + pwm| - 1] == ws + init;
    }
  }

  /** Whatever the readings, the script writes PWM values only while both
      fans are manual, and leaves both enable files at "2". */
  lemma ScriptSafe(rs: seq<Readings>)
    ensures PwmOnlyWhileManual(ScriptWrites(rs))
    ensures LastWritten(ScriptWrites(rs), CpuPwmEnable) == Some("2")
    ensures LastWritten(ScriptWrites(rs), GpuPwmEnable) == Some("2")
  {
    PathsDistinct();
    var run := Run(rs).writes;
    RunAlternates(rs);
    EnableSafe();
    forall j | 0 <= j < |run|
      ensures IsPwmControl(run[j].path)
    {
      assert run[j].path == (if j % 2 == 0 then CpuPwmControl else GpuPwmControl);
    }
    PwmWritesStayManual(EnableWrites, run);
    var ws := EnableWrites + run;
    var r1 := ws + [RestoreWrites[0]];
    assert ScriptWrites(rs) == r1 + [RestoreWrites[1]];
    assert (r1 + [RestoreWrites[1]])[..|r1|] == r1 && r1[..|ws|] == ws;
  }

  /** The exit hook sets both enable files to "2" and touches nothing else,
      so running it a second time changes nothing. */
  lemma RestoreIdempotent(files: map<string, string>)
    ensures var r := Apply(files, RestoreWrites);
      && CpuPwmEnable in r && r[CpuPwmEnable] == "2"
      && GpuPwmEnable in r && r[GpuPwmEnable] == "2"
      && r.Keys == files.Keys + {CpuPwmEnable, GpuPwmEnable}
      && (forall p :: p in files && p != CpuPwmEnable && p != GpuPwmEnable ==> r[p] == files[p])
      && Apply(r, RestoreWrites) == r
  {
    var r := Apply(files, RestoreWrites);
    ApplyTwo(files, RestoreWrites[0], RestoreWrites[1]);
    ApplyTwo(r, RestoreWrites[0], RestoreWrites[1]);
  }

  // ---------------------------------------------------------------- the controller

  /** The script's state: the sysfs files and who drives the fans. The
      ghost history records every write, `boot` the files at start. */
  class Controller {
    var files: map<string, string>
    var mode: Mode
    ghost var history: seq<FileWrite>
    ghost var boot: map<string, string>

    ghost predicate Valid()
      reads this
    {
      && files == Apply(boot, history)
      && PwmOnlyWhileManual(history)
      && (mode == Manual ==> ManualAfter(history))
    }

    constructor (sysfs: map<string, string>)
      ensures Valid() && files == sysfs && mode == Automatic && history == [] && boot == sysfs
    {
      files, mode := sysfs, Automatic;
      history, boot := [], sysfs;
    }

    /** `_write(file, s)`: replace the file's contents. The invariant is
        checked here, at every write: a PWM value is written only under
        manual control, and the enable files are not touched while the
        controller counts as manual. */
    method Write(path: string, text: string)
      requires Valid()
      requires IsPwmControl(path) ==> mode == Manual
      requires mode == Manual ==> path != CpuPwmEnable && path != GpuPwmEnable
      modifies this
      ensures Valid()
      ensures files == old(files)[path := text]
      ensures history == old(history) + [FileWrite(path, text)]
      ensures mode == old(mode) && boot == old(boot)
    {
      var w := FileWrite(path, text);
      AppendWrite(history, w);
      if mode == Manual {
        LastWrittenSkips(history, [w], CpuPwmEnable);
        LastWrittenSkips(history, [w], GpuPwmEnable);
      }
      assert (history + [w])[..|history|] == history;
      files := files[path := text];
      history := history + [w];
    }

    /** `loop()`: one pass, writing the CPU duty and then the GPU duty;
        a read that raised ends the pass. */
    method Loop(r: Readings) returns (fault: Option<Fault>)
      requires Valid() && mode == Manual
      modifies this
      ensures Valid() && mode == Manual && boot == old(boot)
      ensures history == old(history) + Pass(r).writes
      ensures files == Apply(old(files), Pass(r).writes)
      ensures fault == Pass(r).fault
    {
      ghost var f0 := files;
      var cpuTemp := r.cpu;
      if cpuTemp.Failure? {
        return Some(cpuTemp.error);
      }
      var pwmValue := Duty(CpuCurve, cpuTemp.value);
      Write(CpuPwmControl, ShowInt(pwmValue));
      ghost var w1 := FileWrite(CpuPwmControl, ShowInt(pwmValue));
      var gpuTemp := r.gpu;
      if gpuTemp.Failure? {
        ApplyTwo(f0, w1, w1);
        return Some(gpuTemp.error);
      }
      if !FitsDouble(gpuTemp.value) {
        ApplyTwo(f0, w1, w1);
        return Some(FloatOverflow);
      }
      pwmValue := Duty(GpuCurve, 1000 * gpuTemp.value);
      Write(GpuPwmControl, ShowInt(pwmValue));
      ApplyTwo(f0, w1, FileWrite(GpuPwmControl, ShowInt(pwmValue)));
      fault := None;
    }

    /** The first half of `main`: both enable files to "1". */
    method TakeManualControl()
      requires Valid() && mode == Automatic
      modifies this
      ensures Valid() && mode == Manual && boot == old(boot)
      ensures history == old(history) + EnableWrites
      ensures files == old(files)[CpuPwmEnable := "1"][GpuPwmEnable := "1"]
    {
      ghost var h0 := history;
      Write(CpuPwmEnable, "1");
      Write(GpuPwmEnable, "1");
      assert history == h0 + EnableWrites;
      ManualAfterEnable(h0);
      mode := Manual;
    }

    /** The rest of `main`: `loop()` pass after pass, until the readings
        end or a pass raises. */
    method RunPasses(rs: seq<Readings>) returns (passes: nat, fault: Option<Fault>)
      requires Valid() && mode == Manual
      modifies this
      ensures Valid() && mode == Manual && boot == old(boot)
      ensures history == old(history) + Run(rs).writes
      ensures passes == Run(rs).passes && fault == Run(rs).fault
    {
      ghost var h1 := history;
      ghost var run := Run(rs);
      passes, fault := 0, None;
      var i := 0;
      assert rs[i..] == rs;
      while i < |rs|
        invariant 0 <= i <= |rs|
        invariant Valid() && mode == Manual && boot == old(boot)
        invariant history + Run(rs[i..]).writes == h1 + run.writes
        invariant passes + Run(rs[i..]).passes == run.passes
        invariant Run(rs[i..]).fault == run.fault
        invariant fault == None
      {
        ghost var h := history;
        var f := Loop(rs[i]);
        if f.Some? {
          RunStops(rs, i, h, h1 + run.writes);
          fault := f;
          break;
        }
        RunAdvance(rs, i, h, h1 + run.writes);
        passes, i := passes + 1, i + 1;
      }
      if i == |rs| {
        assert rs[i..] == [];
      }
    }

    /** `main`: both enable files to "1", then the passes. */
    method RunMain(rs: seq<Readings>) returns (passes: nat, fault: Option<Fault>)
      requires Valid() && mode == Automatic
      modifies this
      ensures Valid() && mode == Manual && boot == old(boot)
      ensures history == old(history) + (EnableWrites + Run(rs).writes)
      ensures files == Apply(old(files), EnableWrites + Run(rs).writes)
      ensures passes == Run(rs).passes && fault == Run(rs).fault
    {
      ghost var h0, f0 := history, files;
      TakeManualControl();
      passes, fault := RunPasses(rs);
      SeqAssoc(h0, EnableWrites, Run(rs).writes);
      ApplyConcat(boot, h0, EnableWrites + Run(rs).writes);
    }

    /** `resume_auto_fan_control`: both enable files to "2", from any state. */
    method ResumeAutoFanControl()
      requires Valid()
      modifies this
      ensures Valid() && mode == Automatic && boot == old(boot)
      ensures files == old(files)[CpuPwmEnable := "2"][GpuPwmEnable := "2"]
      ensures history == old(history) + RestoreWrites
    {
      mode := Automatic;
      Write(CpuPwmEnable, "2");
      Write(GpuPwmEnable, "2");
    }

    /** The script as a whole: `main`, then the exit hook that `atexit`
        registered, whatever ended the passes. */
    method RunScript(rs: seq<Readings>) returns (passes: nat, fault: Option<Fault>)
      requires Valid() && mode == Automatic
      modifies this
      ensures Valid() && mode == Automatic && boot == old(boot)
      ensures history == old(history) + ScriptWrites(rs)
      ensures files == Apply(old(files), ScriptWrites(rs))
      ensures CpuPwmEnable in files && files[CpuPwmEnable] == "2"
      ensures GpuPwmEnable in files && files[GpuPwmEnable] == "2"
      ensures passes == Run(rs).passes && fault == Run(rs).fault
    {
      ghost var h0, f0 := history, files;
      PathsDistinct();
      passes, fault := RunMain(rs);
      ghost var f1 := files;
      ResumeAutoFanControl();
      ApplyTwo(f1, RestoreWrites[0], RestoreWrites[1]);
      var main := EnableWrites + Run(rs).writes;
      ApplyConcat(f0, main, RestoreWrites);
      SeqAssoc(h0, main, RestoreWrites);
    }
  }
}
