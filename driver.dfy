/**
 * The simulator's driver: the register file starts all zero, and every
 * input line in turn is checked for its length and then executed on that
 * one register file, its trace record appended to the output.  A line that
 * is not five bytes long stops the run with the records written so far.
 * `Run` is the meaning of a whole input; `GoldenRun` is the loop that
 * computes it on a register-file array.
 */
module Driver {
  import opened Bits
  import opened Faults
  import opened Decode
  import opened Trace
  import opened Execute

  /**
   * How a run stands.  `Finished` means every line read so far has been
   * executed: during the run the loop goes on, and after the last line it
   * is the normal end.  `Aborted` is the stop at a line it refused.
   */
  datatype Status = Finished | Aborted(fault: Fault)

  /** The register file, the trace written so far and how the run stands. */
  datatype RunState = RunState(regs: RegFile, output: string, status: Status)

  /** Before the first line: all registers zero, nothing written. */
  const Start: RunState := RunState(ZeroRegs, [], Finished)

  /**
   * One line read: a stopped run stays stopped; a line that is not five
   * bytes stops it; otherwise the line's instruction is executed and its
   * record appended.
   */
  function Feed(st: RunState, line: string): (st': RunState)
    ensures st.status.Aborted? ==> st' == st
    ensures st'.status.Finished? <==> st.status.Finished? && |line| == 5
    ensures st.output <= st'.output && |st'.output| <= |st.output| + 10
  {
    if st.status.Aborted? then st
    else if |line| != 5 then RunState(st.regs, st.output, Aborted(MalformedLine(|line|)))
    else
      match Step(st.regs, StrtolHex(line))
      case Err(e) => RunState(st.regs, st.output, Aborted(e))
      case Ok(e) => RunState(e.regs, st.output + FormatRecord(e.record), Finished)
  }

  /** The state after reading `lines` in order, from the initial state. */
  function Run(lines: seq<string>): RunState
  {
    if lines == [] then Start else Feed(Run(lines[..|lines| - 1]), lines[|lines| - 1])
  }

  /** Register 0 is zero at the start and after every line, so it reads as zero throughout. */
  lemma {:induction false} RunKeepsZeroRegister(lines: seq<string>)
    ensures Run(lines).regs[0] == 0
  {
    if lines != [] {
      var prefix := lines[..|lines| - 1];
      RunKeepsZeroRegister(prefix);
      var st := Run(prefix);
      if st.status.Finished? && |lines[|lines| - 1]| == 5 {
        StepKeepsZeroRegister(st.regs, StrtolHex(lines[|lines| - 1]));
      }
    }
  }

  /** A run finishes exactly when every line is five bytes long: no instruction stops it. */
  lemma {:induction false} RunFinishedIff(lines: seq<string>)
    ensures Run(lines).status.Finished? <==> forall i :: 0 <= i < |lines| ==> |lines[i]| == 5
  {
    if lines != [] {
      var prefix := lines[..|lines| - 1];
      RunFinishedIff(prefix);
      assert Run(lines) == Feed(Run(prefix), lines[|lines| - 1]);
      assert forall i :: 0 <= i < |prefix| ==> prefix[i] == lines[i];
      assert lines == prefix + [lines[|lines| - 1]];
    }
  }

  /** A finished run has written one ten-character record per line. */
  lemma {:induction false} RunOutputLength(lines: seq<string>)
    requires Run(lines).status.Finished?
    ensures |Run(lines).output| == 10 * |lines|
  {
    if lines != [] {
      RunOutputLength(lines[..|lines| - 1]);
    }
  }

  /**
   * What has been written is never taken back: the output after the first
   * `m` lines is a prefix of the output after all of them, whether or not
   * the run stopped in between.
   */
  lemma {:induction false} RunOutputGrows(lines: seq<string>, m: nat)
    requires m <= |lines|
    ensures Run(lines[..m]).output <= Run(lines).output
  {
    if m < |lines| {
      var prefix := lines[..|lines| - 1];
      assert prefix[..m] == lines[..m];
      RunOutputGrows(prefix, m);
    } else {
      assert lines[..m] == lines;
    }
  }

  /**
   * The first line that is not five bytes long stops the run: the registers
   * and the output are those the lines before it left, and nothing after it
   * is read.
   */
  lemma {:induction false} RunStopsAtMalformedLine(lines: seq<string>, k: nat)
    requires k < |lines| && |lines[k]| != 5
    requires forall i :: 0 <= i < k ==> |lines[i]| == 5
    ensures Run(lines).status == Aborted(MalformedLine(|lines[k]|))
    ensures Run(lines).regs == Run(lines[..k]).regs
    ensures Run(lines).output == Run(lines[..k]).output
  {
    if |lines| == k + 1 {
      assert lines[..k] == lines[..|lines| - 1];
      RunFinishedIff(lines[..k]);
    } else {
      var prefix := lines[..|lines| - 1];
      assert prefix[..k] == lines[..k];
      RunStopsAtMalformedLine(prefix, k);
    }
  }

  /** A running simulation that reaches a line of the wrong length stops there. */
  lemma RunAbortsAt(lines: seq<string>, i: nat)
    requires i < |lines| && |lines[i]| != 5 && Run(lines[..i]).status.Finished?
    ensures Run(lines) == RunState(Run(lines[..i]).regs, Run(lines[..i]).output, Aborted(MalformedLine(|lines[i]|)))
  {
    RunFinishedIff(lines[..i]);
    assert forall j :: 0 <= j < i ==> lines[..i][j] == lines[j];
    RunStopsAtMalformedLine(lines, i);
  }

  /** A running simulation that reads a five-byte line executes it and appends its record. */
  lemma RunLine(lines: seq<string>, i: nat)
    requires i < |lines| && |lines[i]| == 5 && Run(lines[..i]).status.Finished?
    ensures var st := Run(lines[..i]);
      var s := Step(st.regs, StrtolHex(lines[i]));
      && s.Ok?
      && Run(lines[..i + 1]) == RunState(s.value.regs, st.output + FormatRecord(s.value.record), Finished)
  {
    var st := Run(lines[..i]);
    StepNeverFaults(st.regs, StrtolHex(lines[i]));
    assert lines[..i + 1][..i] == lines[..i];
  }

  /** An input whose first line is ADDI `r1 := r0 + 7` starts with r1 = 7 and the record `910710007`. */
  lemma RunExample(lines: seq<string>)
    requires |lines| >= 1 && lines[0] == "9107\n"
    ensures Run(lines[..1]) == RunState(ZeroRegs[1 := 7], "910710007\n", Finished)
  {
    assert lines[..0] == [];
    assert Hex4(0x9107) + "\n" == lines[0];
    StrtolOfHex4(0x9107);
    RunLine(lines, 0);
    ExampleFirstStep();
  }

  /** `9107`: ADDI writes 0 + 7 into r1. */
  lemma ExampleFirstStep()
    ensures Step(ZeroRegs, 0x9107) == Ok(Executed(ZeroRegs[1 := 7], TraceRecord(0x9107, 1, 7)))
    ensures FormatRecord(TraceRecord(0x9107, 1, 7)) == "910710007\n"
  {
  }

  /** `9100` then `9110`: ADDI into r1 of 0 + 0, twice; the register file stays all zero. */
  lemma ExampleZeroAdds()
    ensures Step(ZeroRegs, 0x9100) == Ok(Executed(ZeroRegs, TraceRecord(0x9100, 1, 0)))
    ensures Step(ZeroRegs, 0x9110) == Ok(Executed(ZeroRegs, TraceRecord(0x9110, 1, 0)))
    ensures FormatRecord(TraceRecord(0x9100, 1, 0)) == "910010000\n"
    ensures FormatRecord(TraceRecord(0x9110, 1, 0)) == "911010000\n"
  {
    assert ZeroRegs[1 := 0] == ZeroRegs;
  }

  /** `9f01`: ADDI writes 0 + 1 into r15, and the destination prints as one digit. */
  lemma ExampleHighRegister()
    ensures Step(ZeroRegs, 0x9F01) == Ok(Executed(ZeroRegs[15 := 1], TraceRecord(0x9F01, 15, 1)))
    ensures FormatRecord(TraceRecord(0x9F01, 15, 1)) == "9f01f0001\n"
  {
  }

  /** `1234`: ADD r2 := r3 + r4 with r3 = 5 and r4 = 3 writes 8 into r2. */
  lemma ExampleAdd(regs: RegFile)
    requires regs[3] == 5 && regs[4] == 3
    ensures Step(regs, 0x1234) == Ok(Executed(regs[2 := 8], TraceRecord(0x1234, 2, 8)))
    ensures FormatRecord(TraceRecord(0x1234, 2, 8)) == "123420008\n"
  {
  }

  /**
   * The driver loop: a fresh all-zero register file, then every line in
   * order executed in place, stopping at the first line that is not five
   * bytes long.
   */
  method GoldenRun(lines: seq<string>) returns (regFile: array<Word>, output: string, status: Status)
    ensures fresh(regFile)
    ensures regFile.Length == NumRegs
    ensures Run(lines) == RunState(regFile[..], output, status)
    ensures regFile[0] == 0
  {
    regFile := new Word[NumRegs](_ => 0);
    output := "";
    status := Finished;
    assert regFile[..] == ZeroRegs;
    var i := 0;
    while i < |lines|
      invariant 0 <= i <= |lines|
      invariant regFile.Length == NumRegs
      invariant Run(lines[..i]) == RunState(regFile[..], output, Finished)
    {
      if |lines[i]| != 5 {
        status := Aborted(MalformedLine(|lines[i]|));
        RunAbortsAt(lines, i);
        RunKeepsZeroRegister(lines);
        return;
      }
      RunLine(lines, i);
      var record := ProcessInstr(lines[i], regFile);
      output := output + record;
      i := i + 1;
    }
    assert lines[..i] == lines;
    RunKeepsZeroRegister(lines);
  }
}
