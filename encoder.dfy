/**
  Encoder selection of src/video_generator.py: `detect_gpu_support`, the
  `output_args` dictionary, the CPU copy used for the retry, and the test on
  ffmpeg's error text that decides whether a retry is made. The probing
  subprocesses are inputs: their exit codes and standard output.
*/
module Encoder {

  import opened Outcomes
  import opened PyStr

  /** One `subprocess.run(...)`: it exited with a code and stdout, or it raised
      one of the caught exceptions (timeout, missing executable). */
  datatype ProcResult = Exited(code: int, stdout: string) | ProcFailed

  /** The three probes: `nvidia-smi --query-gpu=count`, `ffmpeg -encoders`
      and the one-second `h264_nvenc` test encode. */
  datatype GpuProbes = GpuProbes(smi: ProcResult, encoders: ProcResult, smoke: ProcResult)

  /** `(has_gpu, gpu_count, encoder_available)`. */
  datatype GpuSupport = GpuSupport(hasGpu: bool, count: int, encoder: bool)

  /** The GPU count nvidia-smi reports: `int(stdout.strip())` after exit code 0;
      None when it did not run, failed, or printed something `int` rejects. */
  function SmiCount(smi: ProcResult): Option<int> {
    match smi
    case Exited(code, out) => if code == 0 then ParseInt(Strip(out)) else None
    case ProcFailed => None
  }

  predicate EncoderListed(p: ProcResult) {
    p.Exited? && p.code == 0 && Contains(p.stdout, "h264_nvenc")
  }

  predicate SmokePassed(p: ProcResult) {
    p.Exited? && p.code == 0
  }

  /** `detect_gpu_support`: the straight-line gate of the source, each check
      run only when the previous ones passed. */
  function DetectGpuSupport(p: GpuProbes): (r: GpuSupport)
    ensures r.hasGpu == r.encoder
    ensures r.hasGpu <==>
              (SmiCount(p.smi).Some? && SmiCount(p.smi).value > 0
               && EncoderListed(p.encoders) && SmokePassed(p.smoke))
    ensures r.count == (if SmiCount(p.smi).Some? then SmiCount(p.smi).value else 0)
  {
    var count := match SmiCount(p.smi) case Some(n) => n case None => 0;
    var hasGpu := count > 0;
    var encoderAvailable := hasGpu && EncoderListed(p.encoders);
    if hasGpu && encoderAvailable && SmokePassed(p.smoke) then GpuSupport(true, count, true)
    else GpuSupport(false, count, false)
  }

  /** The number of probe subprocesses started: the encoder list only after a
      GPU was counted, the test encode only after the encoder was listed. */
  function ProbesRun(p: GpuProbes): (n: nat)
    ensures 1 <= n <= 3
    ensures n >= 2 <==> (SmiCount(p.smi).Some? && SmiCount(p.smi).value > 0)
    ensures n == 3 <==> (SmiCount(p.smi).Some? && SmiCount(p.smi).value > 0 && EncoderListed(p.encoders))
  {
    var count := match SmiCount(p.smi) case Some(n) => n case None => 0;
    if count <= 0 then 1 else if !EncoderListed(p.encoders) then 2 else 3
  }

  /** A failed nvidia-smi, or one whose count is not positive, disables the GPU
      whatever the other probes would say. */
  lemma NoCountNoGpu(p: GpuProbes)
    requires SmiCount(p.smi) == None || SmiCount(p.smi).value <= 0
    ensures !DetectGpuSupport(p).hasGpu && !DetectGpuSupport(p).encoder
  {
  }

  lemma StripTwoLines()
    ensures Strip("2\n2\n") == "2\n2"
  {
    var out := "2\n2\n";
    assert !IsSpace(out[0]);
    assert LStrip(out) == out;
    assert IsSpace(out[3]) && out[..3] == "2\n2";
    assert RStrip(out) == RStrip("2\n2");
    assert !IsSpace("2\n2"[2]);
  }

  /** nvidia-smi prints one count line per GPU, so on a two-GPU machine the
      stripped output "2\n2" is not an integer: the count is 0 and no GPU is used. */
  lemma TwoLineCountRejected(enc: ProcResult, smoke: ProcResult)
    ensures DetectGpuSupport(GpuProbes(Exited(0, "2\n2\n"), enc, smoke)) == GpuSupport(false, 0, false)
  {
    StripTwoLines();
    ParseIntRejects("2\n2", 1);
    assert SmiCount(Exited(0, "2\n2\n")) == None;
  }

  // ---------------------------------------------------------------------
  // output arguments
  // ---------------------------------------------------------------------

  /** The keys every encode passes to ffmpeg. */
  const BaseKeys: set<string> := {"c:v", "preset", "pix_fmt", "c:a", "b:a", "threads"}

  /** `use_gpu and not gpu_available` downgrades the request; afterwards the
      GPU is used exactly when it was both requested and available. */
  function EffectiveGpu(useGpu: bool, gpuAvailable: bool): (r: bool)
    ensures r ==> gpuAvailable
    ensures r <==> useGpu && gpuAvailable
  {
    if useGpu && !gpuAvailable then false else useGpu
  }

  /** The `output_args` dictionary: h264_nvenc and a `gpu` entry with the
      device id exactly when the GPU is used, libx264 otherwise. The thread
      count 6 is an int in the source and appears here as its text. */
  function OutputArgs(useGpu: bool, gpuAvailable: bool, deviceId: int): (args: map<string, string>)
    ensures args.Keys == if useGpu && gpuAvailable then BaseKeys + {"gpu"} else BaseKeys
    ensures args["c:v"] == "h264_nvenc" <==> useGpu && gpuAvailable
    ensures args["c:v"] == (if useGpu && gpuAvailable then "h264_nvenc" else "libx264")
    ensures useGpu && gpuAvailable ==> args["gpu"] == IntToString(deviceId)
    ensures args["preset"] == "fast" && args["pix_fmt"] == "yuv420p"
    ensures args["c:a"] == "aac" && args["b:a"] == "192k" && args["threads"] == "6"
  {
    var base := map["c:v" := if useGpu && gpuAvailable then "h264_nvenc" else "libx264",
                     "preset" := "fast", "pix_fmt" := "yuv420p", "c:a" := "aac",
                     "b:a" := "192k", "threads" := "6"];
    if useGpu && gpuAvailable then base["gpu" := IntToString(deviceId)] else base
  }

  /** The retry's arguments: a copy with `c:v` set to libx264 and `gpu` deleted. */
  function CpuArgs(args: map<string, string>): (cpu: map<string, string>)
    ensures cpu.Keys == args.Keys + {"c:v"} - {"gpu"}
    ensures cpu["c:v"] == "libx264"
    ensures forall k :: k in args && k != "c:v" && k != "gpu" ==> k in cpu && cpu[k] == args[k]
  {
    var copy := args["c:v" := "libx264"];
    if "gpu" in copy then copy - {"gpu"} else copy
  }

  /** The retry encodes exactly as a CPU run of the same job would. */
  lemma RetryIsCpuRun(gpuAvailable: bool, deviceId: int)
    ensures CpuArgs(OutputArgs(true, gpuAvailable, deviceId)) == OutputArgs(false, gpuAvailable, deviceId)
  {
    var g := OutputArgs(true, gpuAvailable, deviceId);
    var a := CpuArgs(g);
    var b := OutputArgs(false, gpuAvailable, deviceId);
    assert a.Keys == b.Keys;
    forall k | k in a ensures a[k] == b[k] {
      if k != "c:v" {
        assert k in BaseKeys - {"c:v"} && a[k] == g[k];
      }
    }
  }

  /** CPU arguments are left as they are by the retry's copy. */
  lemma CpuArgsOfCpu(gpuAvailable: bool, deviceId: int)
    ensures CpuArgs(OutputArgs(false, gpuAvailable, deviceId)) == OutputArgs(false, gpuAvailable, deviceId)
  {
    var a := CpuArgs(OutputArgs(false, gpuAvailable, deviceId));
    var b := OutputArgs(false, gpuAvailable, deviceId);
    assert a.Keys == b.Keys;
  }

  /** The statements at lines 493-503: the dictionary display, then
      `output_args['gpu'] = str(gpu_device_id)` when the GPU is used. */
  method BuildOutputArgs(useGpu: bool, gpuAvailable: bool, deviceId: int) returns (args: map<string, string>)
    ensures args == OutputArgs(useGpu, gpuAvailable, deviceId)
  {
    args := map["c:v" := if useGpu && gpuAvailable then "h264_nvenc" else "libx264",
                "preset" := "fast", "pix_fmt" := "yuv420p", "c:a" := "aac",
                "b:a" := "192k", "threads" := "6"];
    if useGpu && gpuAvailable {
      args := args["gpu" := IntToString(deviceId)];
    }
  }

  /** The statements at lines 532-535: copy, replace the codec, delete `gpu`. */
  method BuildCpuArgs(args: map<string, string>) returns (cpu: map<string, string>)
    ensures cpu == CpuArgs(args)
  {
    cpu := args;
    cpu := cpu["c:v" := "libx264"];
    if "gpu" in cpu {
      cpu := cpu - {"gpu"};
    }
  }

  // ---------------------------------------------------------------------
  // the retry decision
  // ---------------------------------------------------------------------

  /** The condition of the `except ffmpeg.Error` branch: the GPU was in use and
      the error text names the NVENC encoder or the CUDA library. `stderr` is
      `str(e.stderr)`, the repr of the error bytes, so a match may span an
      escaped character such as the "n" of an escaped newline. */
  predicate ShouldRetry(useGpu: bool, gpuAvailable: bool, stderr: string) {
    useGpu && gpuAvailable
    && (Contains(stderr, "h264_nvenc") || Contains(stderr, "nvenc") || Contains(stderr, "libcuda"))
  }

  /** The 'h264_nvenc' test is subsumed by the 'nvenc' one. */
  lemma ShouldRetrySimplified(useGpu: bool, gpuAvailable: bool, stderr: string)
    ensures ShouldRetry(useGpu, gpuAvailable, stderr)
            <==> useGpu && gpuAvailable && (Contains(stderr, "nvenc") || Contains(stderr, "libcuda"))
  {
    if Contains(stderr, "h264_nvenc") {
      var i: nat :| i <= |stderr| && MatchAt(stderr, "h264_nvenc", i);
      assert stderr[i + 5..i + 10] == "h264_nvenc"[5..];
      ContainsWitness(stderr, "nvenc", i + 5);
    }
  }

  /** A CPU encode is never retried, whatever the error says. */
  lemma NoRetryOnCpu(gpuAvailable: bool, stderr: string)
    ensures !ShouldRetry(false, gpuAvailable, stderr)
    ensures !ShouldRetry(true, false, stderr)
  {
  }

  /** How the final encode ended: success after one or two attempts, or the
      error that was re-raised. */
  datatype EncodeResult = Encoded(attempts: nat) | EncodeError(attempts: nat, stderr: string)

  /** The try/except at lines 520-570 over the two possible runs' outcomes:
      `first` is the run with `output_args`, `retry` the run with the CPU copy
      (a None entry is an error text; None means success). */
  function EncodeAttempts(useGpu: bool, gpuAvailable: bool, first: Option<string>, retry: Option<string>): (r: EncodeResult)
    ensures first == None ==> r == Encoded(1)
    ensures r.attempts == 2 <==> first.Some? && ShouldRetry(useGpu, gpuAvailable, first.value)
    ensures 1 <= r.attempts <= 2
    ensures r.EncodeError? && r.attempts == 1 ==> r.stderr == first.value
    ensures r.EncodeError? && r.attempts == 2 ==> retry.Some? && r.stderr == retry.value
    ensures r.Encoded? <==> first == None || (ShouldRetry(useGpu, gpuAvailable, first.value) && retry == None)
  {
    match first
    case None => Encoded(1)
    case Some(err) =>
      if ShouldRetry(useGpu, gpuAvailable, err) then
        match retry
        case None => Encoded(2)
        case Some(err2) => EncodeError(2, err2)
      else EncodeError(1, err)
  }
}
