/**
 * `main` (main.go): flag parsing, the version check, the detached timer
 * worker, and the choice between the saved config file and the environment.
 *
 * The config file and the environment are inputs; the worker's sleep and
 * send are recorded as steps, and the send runs Dispatch.SendCommand against
 * a network oracle.
 */
module Entry {
  import opened Results
  import Address
  import Dispatch
  import Flags
  import Numbers

  const DefaultPort: string := "38899"

  /** ~/.lumina-config.json: unreadable, not decodable (with any fields decoded before the error), or decoded. */
  datatype ConfigFile = NoFile | Unparsable(ip: string, port: string) | Decoded(ip: string, port: string)

  /** How a run of the program ends, or the interactive session it starts. */
  datatype Outcome = Exit(code: int) | Interactive(ip: string, port: string, needsSetup: bool)

  /**
   * What the timer worker does, in order. `Slept` records the argument given
   * to time.Sleep in nanoseconds; a duration that is not positive returns at once.
   */
  datatype WorkerStep =
    | Slept(nanos: int)
    | Dispatched(ip: string, port: string, payload: Dispatch.Payload, err: Option<Dispatch.SendError>)

  const NanosPerMinute: int := 60_000_000_000

  /** The largest minute count whose time.Duration does not overflow int64. */
  const MaxExactMinutes: int := 153_722_867

  /** `time.Duration(n) * time.Minute`: an int64 product, wrapping on overflow. */
  function MinutesDuration(minutes: int): int
  {
    Numbers.WrapInt64(minutes * NanosPerMinute)
  }

  /** A non-negative minute count converts exactly when it is at most MaxExactMinutes. */
  lemma MinutesDurationExact(minutes: int)
    requires 0 <= minutes
    ensures MinutesDuration(minutes) == minutes * NanosPerMinute <==> minutes <= MaxExactMinutes
  {
    if minutes <= MaxExactMinutes {
      assert minutes * NanosPerMinute <= MaxExactMinutes * NanosPerMinute;
    } else {
      assert minutes * NanosPerMinute >= (MaxExactMinutes + 1) * NanosPerMinute;
    }
  }

  /** One minute past the limit, the duration wraps negative and the sleep returns at once. */
  lemma MinutesDurationWraps()
    ensures MinutesDuration(MaxExactMinutes + 1) < 0
  {
  }

  predicate IsVersionWord(a: string) { a == "-v" || a == "--version" || a == "version" }

  predicate HasVersionWord(args: seq<string>)
  {
    exists i :: 0 <= i < |args| && IsVersionWord(args[i])
  }

  /** The loop over os.Args[1:] looking for a version request. */
  method FindVersionWord(args: seq<string>) returns (found: bool)
    ensures found <==> HasVersionWord(args)
  {
    for i := 0 to |args|
      invariant forall j :: 0 <= j < i ==> !IsVersionWord(args[j])
    {
      if IsVersionWord(args[i]) {
        return true;
      }
    }
    return false;
  }

  /** The (ip, port) pair main reads: the config file's when it can be read, else WIZ_IP and WIZ_PORT. */
  function ConfigSource(file: ConfigFile, envIP: string, envPort: string): (string, string)
  {
    if file.NoFile? then (envIP, envPort) else (file.ip, file.port)
  }

  /**
   * The config part of `main`: read the file, else the environment; flag
   * setup when the file does not decode or the pair does not validate (for
   * the environment, also when either is empty); then default an empty port.
   */
  method LoadConfig(file: ConfigFile, envIP: string, envPort: string)
    returns (ip: string, port: string, needsSetup: bool)
    ensures var (srcIP, srcPort) := ConfigSource(file, envIP, envPort);
      && ip == srcIP
      && port == (if srcPort == "" then DefaultPort else srcPort)
      && (needsSetup <==> file.Unparsable? || Address.ValidateConfig(srcIP, srcPort).Some?)
    ensures !needsSetup ==> Address.ValidateConfig(ip, port) == None
  {
    needsSetup := false;
    match file {
      case Unparsable(fileIP, filePort) =>
        ip, port := fileIP, filePort;
        needsSetup := true;
      case Decoded(fileIP, filePort) =>
        ip, port := fileIP, filePort;
        if Address.ValidateConfig(ip, port).Some? {
          needsSetup := true;
        }
      case NoFile =>
        ip, port := envIP, envPort;
        if ip == "" || port == "" {
          needsSetup := true;
        } else if Address.ValidateConfig(ip, port).Some? {
          needsSetup := true;
        }
    }
    if port == "" {
      port := DefaultPort;
    }
  }

  /**
   * `main` up to the start of the interactive session. A flag error exits 2
   * and a help request 0; a version word anywhere exits 0; a positive timer
   * runs the worker, which validates before sleeping, sends one setState with
   * state = !off, and exits 1 whatever the send returned.
   */
  method RunMain(args: seq<string>, file: ConfigFile, envIP: string, envPort: string, net: seq<Dispatch.Attempt>)
    returns (outcome: Outcome, ghost steps: seq<WorkerStep>)
    requires Dispatch.MaxAttempts <= |net|
    ensures Flags.ParseFlags(args, Flags.Defaults).HelpRequested? ==> outcome == Exit(0) && steps == []
    ensures Flags.ParseFlags(args, Flags.Defaults).Failed? ==> outcome == Exit(2) && steps == []
    ensures Flags.ParseFlags(args, Flags.Defaults).Parsed? ==>
      var f := Flags.ParseFlags(args, Flags.Defaults).flags;
      if HasVersionWord(args) then outcome == Exit(0) && steps == []
      else if f.timer > 0 then
        && outcome == Exit(1)
        && (Address.ValidateConfig(f.ip, f.port).Some? ==> steps == [])
        && (Address.ValidateConfig(f.ip, f.port).None? ==>
              var sent := Dispatch.Payload("setState", Dispatch.SetStateParams(!f.off));
              |steps| == 2 && steps[0] == Slept(MinutesDuration(f.timer))
              && steps[1].Dispatched? && steps[1].ip == f.ip && steps[1].port == f.port && steps[1].payload == sent
              && (steps[1].err.None? <==> Dispatch.Delivers(net)))
      else
        var (srcIP, srcPort) := ConfigSource(file, envIP, envPort);
        && steps == []
        && outcome == Interactive(srcIP, if srcPort == "" then DefaultPort else srcPort,
                                  file.Unparsable? || Address.ValidateConfig(srcIP, srcPort).Some?)
  {
    steps := [];
    var parsed := Flags.ParseFlags(args, Flags.Defaults);
    match parsed {
      case HelpRequested => return Exit(0), steps;
      case Failed(_) => return Exit(2), steps;
      case Parsed(_, _) =>
    }
    var f := parsed.flags;
    var version := FindVersionWord(args);
    if version {
      return Exit(0), steps;
    }
    if f.timer > 0 {
      if Address.ValidateConfig(f.ip, f.port).Some? {
        return Exit(1), steps;
      }
      steps := steps + [Slept(MinutesDuration(f.timer))];
      var state := !f.off;
      var params := Dispatch.SetStateParams(state);
      var err, _, _, _ := Dispatch.SendCommand(f.ip, f.port, "setState", params, net);
      steps := steps + [Dispatched(f.ip, f.port, Dispatch.Payload("setState", params), err)];
      if err.Some? {
        return Exit(1), steps;
      }
      return Exit(1), steps;
    }
    var ip, port, needsSetup := LoadConfig(file, envIP, envPort);
    outcome := Interactive(ip, port, needsSetup);
  }

  /** Flag parsing runs first: `-v` and `--version` in flag position are undefined flags (exit 2), not version requests. */
  lemma VersionFlagsUndefined()
    ensures Flags.ParseFlags(["-v"], Flags.Defaults) == Flags.Failed(Flags.Undefined("v"))
    ensures Flags.ParseFlags(["--version"], Flags.Defaults) == Flags.Failed(Flags.Undefined("version"))
    ensures Flags.ParseFlags(["version"], Flags.Defaults) == Flags.Parsed(Flags.Defaults, ["version"])
    ensures HasVersionWord(["version"])
  {
    assert "--version"[2..] == "version";
    assert Flags.EqualsIndex("version", 1) == 7 by {
      assert Flags.EqualsIndex("version", 7) == 7;
    }
    assert "-v"[1..] == "v";
    assert IsVersionWord(["version"][0]);
  }

  /** A bare `version` as the value of `-timer` is not a number: flag parsing fails (exit 2) before the version loop. */
  lemma VersionAsTimerValueFails()
    ensures Flags.ParseFlags(["--timer", "version"], Flags.Defaults).Failed?
  {
    assert "--timer"[2..] == "timer";
    assert Flags.EqualsIndex("timer", 1) == 5 by {
      assert Flags.EqualsIndex("timer", 5) == 5;
    }
    assert !Numbers.IsDecimal("version");
  }

  /** A bare `version` as the value of `-off=` is not a boolean: flag parsing fails (exit 2) before the version loop. */
  lemma VersionAsOffValueFails()
    ensures Flags.ParseFlags(["-off=version"], Flags.Defaults).Failed?
  {
    assert "-off=version"[1..] == "off=version";
    assert Flags.EqualsIndex("off=version", 1) == 3;
    assert "off=version"[..3] == "off" && "off=version"[4..] == "version";
    assert Flags.SplitValue("off=version") == ("off", Some("version"));
    assert Flags.ParseBool("version") == None;
  }

  /** An address that validates is never mistaken for a version request. */
  lemma ValidAddressIsNoVersionWord(ip: string, port: string)
    requires Address.ValidateConfig(ip, port) == None
    ensures !IsVersionWord(ip) && !IsVersionWord(port)
  {
  }

  /** Itoa's text is never a version word: it starts with a digit, or with '-' and then a digit. */
  lemma ItoaIsNoVersionWord(n: int)
    ensures !IsVersionWord(Numbers.Itoa(n))
  {
    Numbers.ItoaShape(n);
    var t := Numbers.Itoa(n);
    if n < 0 {
      assert |t[1..]| > 0 by { assert t[1..] == Numbers.NatDigits(-n); }
      assert Numbers.IsDigit(t[1..][0]);
    } else {
      assert Numbers.IsDigit(t[0]);
    }
  }

  /** With a timer value that is no version word, the worker's argument list holds one exactly when its IP or port is one. */
  lemma WorkerArgsVersionWord(t: string, ip: string, port: string)
    requires !IsVersionWord(t)
    ensures HasVersionWord(["--timer", t, "--ip", ip, "--port", port, "--off"]) <==> IsVersionWord(ip) || IsVersionWord(port)
  {
    var args := ["--timer", t, "--ip", ip, "--port", port, "--off"];
    if IsVersionWord(ip) {
      assert IsVersionWord(args[3]);
    } else if IsVersionWord(port) {
      assert IsVersionWord(args[5]);
    }
  }
}
