/** The two temperature readers: `read_cpu_temp` parses the CPU sensor
    file, `read_gpu_temp` picks the temperature column out of the
    `nvidia-smi` report. Python's exceptions become `Fault` values. */
module Sensors {
  import opened Wrappers
  import opened PyText

  datatype Fault =
    | SensorUnreadable  // opening or reading the CPU sensor file raised
    | NotNumeric        // `int()` raised ValueError
    | TooFewLines       // `lines[8]` raised IndexError
    | TooFewTokens      // `tokens[2]` raised IndexError
    | NoCelsiusSuffix   // `assert temp_string.endswith("C")` failed
    | FloatOverflow     // an int no double holds was converted to float: OverflowError

  /** 10^k. */
  function Pow10(k: nat): nat {
    if k == 0 then 1 else 10 * Pow10(k - 1)
  }

  /** A number below 10^k has at most k digits. */
  lemma {:induction false} ShowNatBelowPow10(n: nat, k: nat)
    requires k >= 1 && n < Pow10(k)
    ensures |ShowNat(n)| <= k
  {
    if n >= 10 {
      assert k >= 2;
      assert n / 10 < Pow10(k - 1);
      ShowNatBelowPow10(n / 10, k - 1);
    }
  }

  /** 2^k. */
  function Pow2(k: nat): nat {
    if k == 0 then 1 else 2 * Pow2(k - 1)
  }

  lemma {:induction false} Pow2BelowPow10(k: nat)
    ensures 0 < Pow2(k) <= Pow10(k)
  {
    if k > 0 {
      Pow2BelowPow10(k - 1);
    }
  }

  /** The smallest integer too large for a float: 2^1024 - 2^970, half way
      between the largest double (2^1024 - 2^971) and 2^1024. From it on, an
      IEEE 754 double conversion rounds to 2^1024, which overflows; CPython
      raises OverflowError when it must convert such an integer to a float. */
  const FloatLimit: int := Pow2(1024) - Pow2(970)

  /** An integer CPython converts to a float without OverflowError. */
  predicate FitsDouble(n: int) {
    -FloatLimit < n < FloatLimit
  }

  /** `read_cpu_temp`: the sensor file's text (None when it cannot be
      read) as an integer of millidegrees. The script's `/ 1000.0` is
      kept exact: the result r stands for r / 1000 °C; an integer a double
      cannot hold makes the division raise. */
  function ReadCpuTemp(sensor: Option<string>): (r: Result<int, Fault>)
    ensures r == Failure(SensorUnreadable) <==> sensor.None?
    ensures r.Failure? ==> r.error in {SensorUnreadable, NotNumeric, FloatOverflow}
    ensures r.Success? ==> -FloatLimit < r.value < FloatLimit
  {
    match sensor
    case None => Failure(SensorUnreadable)
    case Some(text) =>
      match ParseInt(text)
      case None => Failure(NotNumeric)
      case Some(n) =>
        if FitsDouble(n) then Success(n) else Failure(FloatOverflow)
  }

  /** An integer a double can hold is below 2^1024 and so has at most 1024
      digits (309, in fact), fewer than `int()` converts. */
  lemma DigitsBelowFloatLimit(n: int)
    requires -FloatLimit < n < FloatLimit
    ensures Digits(n) <= 1024 < MaxStrDigits
  {
    Pow2BelowPow10(970);
    Pow2BelowPow10(1024);
    ShowNatBelowPow10(if n < 0 then -n else n, 1024);
  }

  /** Whatever integer the kernel writes, with any whitespace `int()` skips
      around it (the trailing newline of a sysfs file), is read back
      exactly, as long as a double can hold it. */
  lemma CpuReadsWrittenValue(n: int, w1: string, w2: string)
    requires AllIntSpace(w1) && AllIntSpace(w2)
    requires -FloatLimit < n < FloatLimit
    ensures ReadCpuTemp(Some(w1 + ShowInt(n) + w2)) == Success(n)
  {
    DigitsBelowFloatLimit(n);
    ParseShowInt(n, w1, w2);
  }

  /** An integer too large for a double: with at most `MaxStrDigits` digits
      `int()` reads it and the division by 1000.0 raises OverflowError; with
      more, `int()` itself raises ValueError. */
  lemma CpuRejectsHuge(n: int, w1: string, w2: string)
    requires AllIntSpace(w1) && AllIntSpace(w2)
    requires n <= -FloatLimit || FloatLimit <= n
    ensures ReadCpuTemp(Some(w1 + ShowInt(n) + w2)) ==
      Failure(if Digits(n) <= MaxStrDigits then FloatOverflow else NotNumeric)
  {
    ParseShowInt(n, w1, w2);
  }

  /** More than `MaxStrDigits` digits in the sensor text, leading zeros
      included, make `int()` raise. */
  lemma CpuRejectsTooManyDigits(text: string)
    requires DigitCount(IntStrip(text)) > MaxStrDigits
    ensures ReadCpuTemp(Some(text)) == Failure(NotNumeric)
  {
    ParseRejectsTooManyDigits(text);
  }

  /** An information separator U+001C..U+001F anywhere in the sensor text
      makes `int()` raise, even around the digits. */
  lemma CpuRejectsSeparator(text: string, k: nat)
    requires k < |text| && '\U{1c}' <= text[k] <= '\U{1f}'
    ensures ReadCpuTemp(Some(text)) == Failure(NotNumeric)
  {
    ParseRejectsSeparator(text, k);
  }

  /** A sensor text holding, between the whitespace `int()` skips,
      anything but digits, underscores and a leading sign is a parse error. */
  lemma CpuRejectsNonNumeric(text: string, k: nat)
    requires k < |IntStrip(text)|
    requires var c := IntStrip(text)[k]; !IsDigit(c) && c != '_' && !(k == 0 && c in "+-")
    ensures ReadCpuTemp(Some(text)) == Failure(NotNumeric)
  {
    ParseRejectsForeignChar(text, k);
  }

  /** The words `read_gpu_temp` looks at: line 8 of the report, stripped,
      split on whitespace runs. (The script strips every line; only line 8
      is ever used.) */
  function GpuTokens(lines: seq<string>): seq<string>
    requires |lines| >= 9
  {
    SplitWs(Strip(lines[8]))
  }

  /** `read_gpu_temp` on the report's lines: token 2 of line 8, which must
      end in "C", read as an integer without its "C". */
  function ReadGpuTemp(lines: seq<string>): (r: Result<int, Fault>)
    ensures r.Failure? ==> r.error != SensorUnreadable
  {
    if |lines| < 9 then Failure(TooFewLines)
    else
      var tokens := GpuTokens(lines);
      if |tokens| < 3 then Failure(TooFewTokens)
      else
        var tempString := tokens[2];
        if tempString == [] || tempString[|tempString| - 1] != 'C' then Failure(NoCelsiusSuffix)
        else
          match ParseInt(tempString[..|tempString| - 1])
          case None => Failure(NotNumeric)
          case Some(t) => Success(t)
  }

  /** Which exception `read_gpu_temp` raises: IndexError when there are
      fewer than 9 lines or fewer than 3 tokens, AssertionError when token 2
      does not end in "C" (the empty token included). */
  lemma GpuFaults(lines: seq<string>)
    ensures ReadGpuTemp(lines) == Failure(TooFewLines) <==> |lines| < 9
    ensures ReadGpuTemp(lines) == Failure(TooFewTokens) <==> |lines| >= 9 && |GpuTokens(lines)| < 3
    ensures ReadGpuTemp(lines) == Failure(NoCelsiusSuffix) <==>
      |lines| >= 9 && |GpuTokens(lines)| >= 3 &&
      (GpuTokens(lines)[2] == [] || GpuTokens(lines)[2][|GpuTokens(lines)[2]| - 1] != 'C')
  {
  }

  /** A report whose line 8 is a row of words, the third of which is
      `str(t) + "C"`, reads as t, whatever whitespace pads the row and
      separates its columns, and whatever the other lines hold, unless t
      has more digits than `int()` converts. */
  lemma GpuReadsTemperatureColumn(lines: seq<string>, w1: string, words: seq<string>, gaps: seq<string>, w2: string, t: int)
    requires |lines| >= 9 && AllSpace(w1) && AllSpace(w2)
    requires |words| >= 3 && forall k :: 0 <= k < |words| ==> words[k] != [] && NoSpace(words[k])
    requires |words| == |gaps| + 1 && Gaps(gaps)
    requires words[2] == ShowInt(t) + "C"
    requires lines[8] == w1 + JoinWith(words, gaps) + w2
    ensures ReadGpuTemp(lines) == if Digits(t) <= MaxStrDigits then Success(t) else Failure(NotNumeric)
  {
    WordsOfLine(w1, words, gaps, w2);
    GpuReadsToken(lines, t);
  }

  /** A padded row of words strips and splits back into its words. */
  lemma WordsOfLine(w1: string, words: seq<string>, gaps: seq<string>, w2: string)
    requires AllSpace(w1) && AllSpace(w2)
    requires words != [] && forall k :: 0 <= k < |words| ==> words[k] != [] && NoSpace(words[k])
    requires |words| == |gaps| + 1 && Gaps(gaps)
    ensures SplitWs(Strip(w1 + JoinWith(words, gaps) + w2)) == words
  {
    JoinWithEnds(words, gaps);
    StripAround(StrSpace, w1, JoinWith(words, gaps), w2);
    SplitJoinWith(words, gaps);
  }

  lemma GpuReadsToken(lines: seq<string>, t: int)
    requires |lines| >= 9 && |GpuTokens(lines)| >= 3
    requires GpuTokens(lines)[2] == ShowInt(t) + "C"
    ensures ReadGpuTemp(lines) == if Digits(t) <= MaxStrDigits then Success(t) else Failure(NotNumeric)
  {
    var tempString := GpuTokens(lines)[2];
    var num := tempString[..|tempString| - 1];
    assert tempString[|tempString| - 1] == 'C';
    assert num == ShowInt(t);
    ParseShowIntBare(t);
  }

  /** A token that ends in "C" but holds, before it, a character other than
      a digit, an underscore or a leading sign is a parse error, not a
      reading. */
  lemma GpuRejectsNonNumeric(lines: seq<string>, k: nat)
    requires |lines| >= 9 && |GpuTokens(lines)| >= 3
    requires var tok := GpuTokens(lines)[2]; tok != [] && tok[|tok| - 1] == 'C'
    requires var num := GpuTokens(lines)[2][..|GpuTokens(lines)[2]| - 1];
      k < |num| && !IsDigit(num[k]) && num[k] != '_' && !(k == 0 && num[k] in "+-")
    ensures ReadGpuTemp(lines) == Failure(NotNumeric)
  {
    var tok := GpuTokens(lines)[2];
    var num := tok[..|tok| - 1];
    assert ParseInt(num).None? by {
      assert NoSpace(tok);
      assert NoSpace(num);
      assert IntStrip(num) == num by { StripBare(IntSpace, num); }
      ParseRejectsForeignChar(num, k);
    }
  }

  /** A token "C" alone leaves nothing for `int()`: a parse error. */
  lemma GpuRejectsBareC(lines: seq<string>)
    requires |lines| >= 9 && |GpuTokens(lines)| >= 3
    requires GpuTokens(lines)[2] == "C"
    ensures ReadGpuTemp(lines) == Failure(NotNumeric)
  {
    assert "C"[..0] == [];
    StripBare(IntSpace, []);
  }
}
