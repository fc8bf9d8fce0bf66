/**
 * The bubbletea model of tui.go: `initialModel`, the `Update` transitions and
 * the argument list of the detached timer worker.
 *
 * Go's Update has a value receiver and returns the changed copy, so here each
 * handler takes a Model and returns the new one. What Update cannot decide by
 * itself is an input: the text field's value after it handles a key (`typed`),
 * the network outcomes of the one send an update may make (`net`), and the
 * error, if any, of starting the worker process (`spawnError`). External
 * actions are returned as effects.
 */
module Tui {
  import opened Results
  import Numbers
  import HexColor
  import Dispatch
  import Discovery
  import Address
  import Flags
  import Entry

  datatype View =
    | SetupView
    | MenuView
    | ColorPickerView
    | HexInputView
    | BrightnessView
    | TimerInputView
    | DiscoveryView
    | HelpView

  /** The status line, one variant per message the program writes there. */
  datatype Status =
    | Ready
    | ConfigSaved
    | PowerOn
    | PowerOff
    | PowerToggleFailed(err: Dispatch.SendError)
    | Discovering
    | ColorNamed(name: string)
    | ColorHex(hex: string)
    | ColorChangeFailed(err: Dispatch.SendError)
    | InvalidHex
    | Bright(level: int)
    | BrightnessChangeFailed(err: Dispatch.SendError)
    | SleepIn(minutes: int)
    | TimerSpawnFailed(reason: string)
    | TimerDoneInBackground
    | TimerPowerOff
    | TimerPowerOffFailed(err: Dispatch.SendError)
    | Selected(name: string, ip: string)

  /** `model`, without the rendering-only icons, spinner and widget styling. */
  datatype Model = Model(
    state: View,
    setupStep: int,
    cursor: int,
    colorCursor: int,
    status: Status,
    ip: string,
    port: string,
    isOn: bool,
    currentColor: string,
    brightness: int,
    input: string,  // the text field's value
    timerActive: bool,
    detachedTimer: bool,
    discoveredDevices: seq<Discovery.Device>,
    deviceCursor: int)

  /**
   * A key press, named as bubbletea's KeyMsg.String() names it: "up", "down",
   * "left", "right", "enter", "esc", "ctrl+c", a single printable character
   * (the space bar included), or any other key name, which no case matches.
   */
  datatype Key = Up | Down | Left | Right | Enter | Esc | CtrlC | Rune(c: char) | OtherKey

  datatype Msg = SpinnerTick | TimerFinished | KeyPress(key: Key) | OtherMsg

  /** A command handed back to the bubbletea runtime. */
  datatype Task = InputTask | SpinnerTask | AfterDuration(nanos: int)

  datatype Reply = Continue(tasks: seq<Task>) | Quit

  /** An external action taken while handling a message. */
  datatype Effect =
    | Send(ip: string, port: string, payload: Dispatch.Payload)
    | SaveConfig(ip: string, port: string)
    | Spawn(argv: seq<string>)

  datatype Swatch = Swatch(name: string, hex: string)

  /**
   * The number of menu entries: Toggle Power, Color Grid, Hex Colors,
   * Brightness, Sleep Timer, Discover Devices, Help, Exit.
   */
  const MenuSize: int := 8

  /** The number of colour swatches in the grid. */
  const PaletteSize: int := 21

  const Palette: seq<Swatch> := [
    Swatch("Warm", "#FFB56B"), Swatch("Day", "#FFE4CE"), Swatch("Cool", "#E0F7FA"),
    Swatch("Ruby", "#FF0033"), Swatch("Rose", "#FF66CC"), Swatch("Pink", "#FFB6C1"),
    Swatch("Peach", "#FF9966"), Swatch("Orng", "#FF8C00"), Swatch("Gold", "#FFD700"),
    Swatch("Lime", "#32CD32"), Swatch("Mint", "#98FF98"), Swatch("Emrld", "#00FF00"),
    Swatch("Teal", "#008080"), Swatch("Aqua", "#00FFFF"), Swatch("Sky", "#87CEEB"),
    Swatch("Ocean", "#006994"), Swatch("Blue", "#0000FF"), Swatch("Navy", "#000080"),
    Swatch("Lvndr", "#E6E6FA"), Swatch("Prple", "#800080"), Swatch("Mgnta", "#FF00FF")]

  const FallbackIP: string := "192.168.1.2"
  const InitialColor: string := "#CBA6F7"
  const BrightnessStep: int := 10

  predicate OnBrightnessGrid(b: int)
  {
    10 <= b <= 100 && b % BrightnessStep == 0
  }

  /** The invariant every model the program builds satisfies. */
  predicate Valid(m: Model)
  {
    && (m.setupStep == 0 || m.setupStep == 1)
    && 0 <= m.cursor < MenuSize
    && 0 <= m.colorCursor < PaletteSize
    && OnBrightnessGrid(m.brightness)
    && 0 <= m.deviceCursor
    && (m.deviceCursor < |m.discoveredDevices| || m.deviceCursor == 0)
  }

  /** A cursor step that is taken only when it lands inside [0, size). */
  function MoveWithin(c: int, delta: int, size: int): int
  {
    if 0 <= c + delta < size then c + delta else c
  }

  /** `initialModel`: the setup screen when setup is needed, else the menu, at full brightness, off. */
  function InitialModel(ip: string, port: string, needsSetup: bool): (m: Model)
    ensures Valid(m)
    ensures m.state == (if needsSetup then SetupView else MenuView) && m.setupStep == 0
    ensures m.ip == ip && m.port == port && m.brightness == 100 && !m.isOn
    ensures !m.timerActive && !m.detachedTimer && m.discoveredDevices == [] && m.input == ""
  {
    Model(if needsSetup then SetupView else MenuView, 0, 0, 0, Ready, ip, port, false, InitialColor, 100,
          "", false, false, [], 0)
  }

  /** The session main starts is valid, and opens on the menu only for an address that validates. */
  lemma SessionStart(file: Entry.ConfigFile, envIP: string, envPort: string)
    ensures var (srcIP, srcPort) := Entry.ConfigSource(file, envIP, envPort);
      var needsSetup := file.Unparsable? || Address.ValidateConfig(srcIP, srcPort).Some?;
      var m := InitialModel(srcIP, if srcPort == "" then Entry.DefaultPort else srcPort, needsSetup);
      m.state == MenuView ==> Address.ValidateConfig(m.ip, m.port) == None
  {
  }

  /** The grid holds PaletteSize swatches, and every one is a well-formed colour. */
  lemma PaletteParses()
    ensures |Palette| == PaletteSize
    ensures forall i :: 0 <= i < |Palette| ==> HexColor.IsColorLiteral(Palette[i].hex)
  {
    PaletteFirstQuarter();
    PaletteSecondQuarter();
    PaletteThirdQuarter();
    PaletteLastQuarter();
  }

  /** Swatches 0 to 4, Warm to Rose. */
  lemma PaletteFirstQuarter()
    ensures forall i :: 0 <= i < 5 ==> HexColor.IsColorLiteral(Palette[i].hex)
  {
  }

  /** Swatches 5 to 9, Pink to Lime. */
  lemma PaletteSecondQuarter()
    ensures forall i :: 5 <= i < 10 ==> HexColor.IsColorLiteral(Palette[i].hex)
  {
  }

  /** Swatches 10 to 14, Mint to Sky. */
  lemma PaletteThirdQuarter()
    ensures forall i :: 10 <= i < 15 ==> HexColor.IsColorLiteral(Palette[i].hex)
  {
  }

  /** Swatches 15 to 20, Ocean to Mgnta. */
  lemma PaletteLastQuarter()
    ensures forall i :: 15 <= i < 21 ==> HexColor.IsColorLiteral(Palette[i].hex)
  {
  }

  function SwatchAt(i: int): Swatch
    requires 0 <= i < PaletteSize
  {
    PaletteParses();
    Palette[i]
  }

  /** The colour a swatch sends; hexToRGB's error is ignored there, and PaletteParses shows it never occurs. */
  function PaletteColor(i: int): (c: HexColor.Rgb)
    requires 0 <= i < PaletteSize
    ensures HexColor.HexToRGB(SwatchAt(i).hex) == Ok(c)
  {
    PaletteParses();
    HexColor.HexToRGB(SwatchAt(i).hex).value
  }

  /** The argument list of the worker `startDetachedTimer` launches. */
  function WorkerArgv(mins: int, ip: string, port: string): (argv: seq<string>)
    ensures Entry.HasVersionWord(argv) <==> Entry.IsVersionWord(ip) || Entry.IsVersionWord(port)
  {
    Entry.ItoaIsNoVersionWord(mins);
    Entry.WorkerArgsVersionWord(Numbers.Itoa(mins), ip, port);
    ["--timer", Numbers.Itoa(mins), "--ip", ip, "--port", port, "--off"]
  }

  /** main.go's flags read the worker's arguments back as the same timer, address, and off = true. */
  lemma WorkerArgvRoundTrip(mins: int, ip: string, port: string)
    requires Numbers.InInt64(mins)
    ensures Flags.ParseFlags(WorkerArgv(mins, ip, port), Flags.Defaults)
      == Flags.Parsed(Flags.Flags(mins, ip, port, true), [])
  {
    var t := Numbers.Itoa(mins);
    var f0 := Flags.Defaults;
    var f1 := f0.(timer := mins);
    var f2 := f1.(ip := ip);
    var f3 := f2.(port := port);
    var off: seq<string> := ["--off"] + [];
    var portArgs := ["--port", port] + off;
    var ipArgs := ["--ip", ip] + portArgs;
    assert WorkerArgv(mins, ip, port) == ["--timer", t] + ipArgs;
    assert Flags.ParseFlags(off, f3) == Flags.Parsed(Flags.Flags(mins, ip, port, true), []) by {
      Flags.OffFlagAlone([], f3);
    }
    assert Flags.ParseFlags(portArgs, f2) == Flags.ParseFlags(off, f3) by {
      Flags.ValueFlagTakesNextArgument("--port", port, off, f2);
    }
    assert Flags.ParseFlags(ipArgs, f1) == Flags.ParseFlags(portArgs, f2) by {
      Flags.ValueFlagTakesNextArgument("--ip", ip, portArgs, f1);
    }
    assert Flags.ParseFlags(["--timer", t] + ipArgs, f0) == Flags.ParseFlags(ipArgs, f1) by {
      Numbers.AtoiItoa(mins);
      Flags.TimerFlagTakesNextArgument(t, ipArgs, f0);
    }
  }

  /**
   * The spawned worker, run with its argument list. The setup view stores the
   * address unvalidated, so the worker may be given one that main refuses:
   * a version word as IP or port exits 0, any other address that does not
   * validate exits 1, both without sleeping or sending. A valid address
   * sleeps the int64 duration of `mins` minutes, sends setState with
   * state = false once, and exits with status 1.
   */
  method DetachedWorker(mins: int, ip: string, port: string, net: seq<Dispatch.Attempt>)
    returns (outcome: Entry.Outcome, ghost steps: seq<Entry.WorkerStep>)
    requires 0 < mins && Numbers.InInt64(mins)
    requires Dispatch.MaxAttempts <= |net|
    ensures Entry.IsVersionWord(ip) || Entry.IsVersionWord(port) ==> outcome == Entry.Exit(0) && steps == []
    ensures !Entry.IsVersionWord(ip) && !Entry.IsVersionWord(port) && Address.ValidateConfig(ip, port).Some? ==>
      outcome == Entry.Exit(1) && steps == []
    ensures Address.ValidateConfig(ip, port) == None ==>
      && outcome == Entry.Exit(1)
      && |steps| == 2 && steps[0] == Entry.Slept(Entry.MinutesDuration(mins))
      && steps[1].Dispatched? && steps[1].ip == ip && steps[1].port == port
      && steps[1].payload == Dispatch.Payload("setState", Dispatch.SetStateParams(false))
      && (steps[1].err.None? <==> Dispatch.Delivers(net))
  {
    var argv := WorkerArgv(mins, ip, port);
    WorkerArgvRoundTrip(mins, ip, port);
    if Address.ValidateConfig(ip, port) == None {
      Entry.ValidAddressIsNoVersionWord(ip, port);
    }
    ghost var parsed := Flags.ParseFlags(argv, Flags.Defaults);
    assert parsed.Parsed? && parsed.flags == Flags.Flags(mins, ip, port, true);
    outcome, steps := Entry.RunMain(argv, Entry.NoFile, "", "", net);
  }

  /** The send Update makes through sendCommand, recorded as an effect. */
  method SendFrom(m: Model, name: string, params: Dispatch.Params, net: seq<Dispatch.Attempt>)
    returns (err: Option<Dispatch.SendError>, effects: seq<Effect>)
    requires Dispatch.MaxAttempts <= |net| && Dispatch.Encodable(params)
    ensures effects == [Send(m.ip, m.port, Dispatch.Payload(name, params))]
    ensures err.None? <==> Dispatch.Delivers(net)
  {
    var e, _, _, _ := Dispatch.SendCommand(m.ip, m.port, name, params, net);
    err := e;
    effects := [Send(m.ip, m.port, Dispatch.Payload(name, params))];
  }

  /** The send a step made went to the configured bulb and was delivered. */
  predicate DeliveredSend(m: Model, effects: seq<Effect>, net: seq<Dispatch.Attempt>)
  {
    |effects| == 1 && effects[0].Send? && effects[0].ip == m.ip && effects[0].port == m.port && Dispatch.MaxAttempts <= |net| && Dispatch.Delivers(net)
  }

  /**
   * What a key press keeps whatever the key and the view: the invariant, at
   * most one external action, sends only to the configured address, the power
   * flag changed only by a delivered command, the brightness changed only by a
   * delivered command and by one step, and the discovered devices untouched.
   */
  predicate KeyStepKeeps(m: Model, m': Model, effects: seq<Effect>, net: seq<Dispatch.Attempt>)
  {
    && Valid(m')
    && |effects| <= 1
    && (effects != [] && effects[0].Send? ==> effects[0].ip == m.ip && effects[0].port == m.port)
    && (m'.isOn != m.isOn ==> DeliveredSend(m, effects, net))
    && (m'.brightness != m.brightness ==>
          DeliveredSend(m, effects, net) && (m'.brightness == m.brightness - BrightnessStep || m'.brightness == m.brightness + BrightnessStep))
    && m'.discoveredDevices == m.discoveredDevices
  }

  /** `timerFinishedMsg`: the timer is over and the light is taken as off; only a non-detached timer sends. */
  predicate FinishTimerResult(m: Model, net: seq<Dispatch.Attempt>, m': Model, effects: seq<Effect>)
    requires Dispatch.MaxAttempts <= |net|
  {
    && (m.detachedTimer ==>
      effects == [] && m' == m.(timerActive := false, isOn := false, status := TimerDoneInBackground))
    && (!m.detachedTimer ==>
      && effects == [Send(m.ip, m.port, Dispatch.Payload("setState", Dispatch.SetStateParams(false)))]
      && m' == m.(timerActive := false, isOn := false, status := m'.status)
      && (m'.status == TimerPowerOff <==> Dispatch.Delivers(net))
      && (m'.status != TimerPowerOff ==> m'.status.TimerPowerOffFailed?))
  }

  /** Handles `timerFinishedMsg`, sending the power-off itself unless a worker was started. */
  method FinishTimer(m: Model, net: seq<Dispatch.Attempt>) returns (m': Model, effects: seq<Effect>)
    requires Valid(m) && Dispatch.MaxAttempts <= |net|
    ensures Valid(m') && !m'.timerActive && !m'.isOn
    ensures FinishTimerResult(m, net, m', effects)
  {
    m' := m.(timerActive := false);
    m' := m'.(isOn := false);
    if m'.detachedTimer {
      m' := m'.(status := TimerDoneInBackground);
      effects := [];
    } else {
      var err;
      err, effects := SendFrom(m', "setState", Dispatch.SetStateParams(false), net);
      if err.Some? {
        m' := m'.(status := TimerPowerOffFailed(err.value));
      } else {
        m' := m'.(status := TimerPowerOff);
      }
    }
  }

  /** What a key does on the setup screen: the IP on the first enter, the port and the save on the second, esc quits. */
  predicate SetupKeyResult(m: Model, key: Key, typed: string, m': Model, reply: Reply, effects: seq<Effect>)
  {
    && (key == Enter && m.setupStep == 0 ==>
        && m' == m.(ip := if m.input == "" then FallbackIP else m.input, setupStep := 1, input := "")
        && effects == [] && reply == Continue([]))
    && (key == Enter && m.setupStep != 0 ==>
        var port := if m.input == "" then Entry.DefaultPort else m.input;
        && m' == m.(port := port, state := MenuView, input := "", status := ConfigSaved)
        && effects == [SaveConfig(m.ip, port)] && reply == Continue([]))
    && (key == Esc ==> m' == m && reply == Quit && effects == [])
    && (key != Enter && key != Esc ==>
        m' == m.(input := typed) && reply == Continue([InputTask]) && effects == [])
  }

  /** The setup screen: enter takes the IP, then the port (with fallbacks) and saves; esc quits. */
  method SetupKey(m: Model, key: Key, typed: string, ghost net: seq<Dispatch.Attempt>)
    returns (m': Model, reply: Reply, effects: seq<Effect>)
    requires Valid(m) && m.state == SetupView
    ensures KeyStepKeeps(m, m', effects, net)
    ensures SetupKeyResult(m, key, typed, m', reply, effects)
  {
    effects := [];
    m' := m;
    if key == Enter {
      if m'.setupStep == 0 {
        m' := m'.(ip := m'.input);
        if m'.ip == "" {
          m' := m'.(ip := FallbackIP);
        }
        m' := m'.(setupStep := 1);
        m' := m'.(input := "");
      } else {
        m' := m'.(port := m'.input);
        if m'.port == "" {
          m' := m'.(port := Entry.DefaultPort);
        }
        effects := [SaveConfig(m'.ip, m'.port)];
        m' := m'.(state := MenuView);
        m' := m'.(input := "");
        m' := m'.(status := ConfigSaved);
      }
      reply := Continue([]);
    } else if key == Esc {
      reply := Quit;
    } else {
      m' := m'.(input := typed);
      reply := Continue([InputTask]);
    }
  }

  predicate IsUp(key: Key) { key == Up || key == Rune('k') }
  predicate IsDown(key: Key) { key == Down || key == Rune('j') }
  predicate IsLeft(key: Key) { key == Left || key == Rune('h') }
  predicate IsRight(key: Key) { key == Right || key == Rune('l') }
  predicate IsSelect(key: Key) { key == Enter || key == Rune(' ') }

  /** The view each menu entry from 1 to 6 opens. */
  function MenuTarget(cursor: int): View
    requires 1 <= cursor <= 6
  {
    match cursor
    case 1 => ColorPickerView
    case 2 => HexInputView
    case 3 => BrightnessView
    case 4 => TimerInputView
    case 5 => DiscoveryView
    case 6 => HelpView
  }

  /** Menu entry 0: flip the power flag, send it, and flip it back when the send fails. */
  method TogglePower(m: Model, net: seq<Dispatch.Attempt>) returns (m': Model, effects: seq<Effect>)
    requires Valid(m) && Dispatch.MaxAttempts <= |net|
    ensures KeyStepKeeps(m, m', effects, net)
    ensures effects == [Send(m.ip, m.port, Dispatch.Payload("setState", Dispatch.SetStateParams(!m.isOn)))]
    ensures Dispatch.Delivers(net) ==> m' == m.(isOn := !m.isOn, status := if m.isOn then PowerOff else PowerOn)
    ensures !Dispatch.Delivers(net) ==> m'.status.PowerToggleFailed? && m' == m.(status := m'.status)
  {
    m' := m.(isOn := !m.isOn);
    var err;
    err, effects := SendFrom(m', "setState", Dispatch.SetStateParams(m'.isOn), net);
    if err.Some? {
      m' := m'.(status := PowerToggleFailed(err.value));
      m' := m'.(isOn := !m'.isOn);
    } else {
      m' := m'.(status := if m'.isOn then PowerOn else PowerOff);
    }
  }

  /** Menu entries 1 to 7: open a view (clearing the text field for the entry views) or quit. */
  method OpenEntry(m: Model, ghost net: seq<Dispatch.Attempt>) returns (m': Model, reply: Reply)
    requires Valid(m) && 1 <= m.cursor
    ensures KeyStepKeeps(m, m', [], net)
    ensures m.cursor <= 6 ==>
      && m' == m.(state := MenuTarget(m.cursor),
                  input := if m.cursor == 2 || m.cursor == 4 then "" else m.input,
                  status := if m.cursor == 5 then Discovering else m.status)
      && reply == Continue([])
    ensures m.cursor == 7 ==> m' == m && reply == Quit
  {
    m', reply := m, Continue([]);
    match m'.cursor {
      case 1 => m' := m'.(state := ColorPickerView);
      case 2 =>
        m' := m'.(state := HexInputView);
        m' := m'.(input := "");
      case 3 => m' := m'.(state := BrightnessView);
      case 4 =>
        m' := m'.(state := TimerInputView);
        m' := m'.(input := "");
      case 5 =>
        m' := m'.(state := DiscoveryView);
        m' := m'.(status := Discovering);
      case 6 => m' := m'.(state := HelpView);
      case 7 => reply := Quit;
    }
  }

  /** Up and down in the menu: one entry at a time, never past the first or the last. */
  method MoveMenuCursor(m: Model, key: Key, ghost net: seq<Dispatch.Attempt>) returns (m': Model)
    requires Valid(m) && (IsUp(key) || IsDown(key))
    ensures KeyStepKeeps(m, m', [], net)
    ensures m' == m.(cursor := MoveWithin(m.cursor, if IsUp(key) then -1 else 1, MenuSize))
  {
    var c := m.cursor;
    if IsUp(key) {
      if c > 0 {
        c := c - 1;
      }
    } else {
      if c < MenuSize - 1 {
        c := c + 1;
      }
    }
    m' := m.(cursor := c);
  }

  /**
   * What enter or space does on a menu entry: entry 0 sends the flipped power
   * state and keeps it only when delivered, entries 1 to 6 open their view
   * (clearing the field for hex and timer, "Discovering" for discovery), and
   * entry 7 quits.
   */
  predicate MenuSelectResult(m: Model, net: seq<Dispatch.Attempt>, m': Model, reply: Reply, effects: seq<Effect>)
    requires Dispatch.MaxAttempts <= |net|
  {
    && (m.cursor == 0 ==>
          && effects == [Send(m.ip, m.port, Dispatch.Payload("setState", Dispatch.SetStateParams(!m.isOn)))]
          && reply == Continue([])
          && (Dispatch.Delivers(net) ==> m' == m.(isOn := !m.isOn, status := if m.isOn then PowerOff else PowerOn))
          && (!Dispatch.Delivers(net) ==> m'.status.PowerToggleFailed? && m' == m.(status := m'.status)))
    && (1 <= m.cursor <= 6 ==>
          && m' == m.(state := MenuTarget(m.cursor),
                      input := if m.cursor == 2 || m.cursor == 4 then "" else m.input,
                      status := if m.cursor == 5 then Discovering else m.status)
          && reply == Continue([]) && effects == [])
    && (m.cursor == 7 ==> m' == m && reply == Quit && effects == [])
  }

  /** Enter or space on a menu entry: entry 0 toggles the power, the others open their view or quit. */
  method MenuSelect(m: Model, net: seq<Dispatch.Attempt>) returns (m': Model, reply: Reply, effects: seq<Effect>)
    requires Valid(m) && m.state == MenuView && Dispatch.MaxAttempts <= |net|
    ensures KeyStepKeeps(m, m', effects, net)
    ensures MenuSelectResult(m, net, m', reply, effects)
  {
    if m.cursor == 0 {
      m', effects := TogglePower(m, net);
      reply := Continue([]);
    } else {
      m', reply := OpenEntry(m, net);
      effects := [];
    }
  }

  /** What a key does in the menu: q quits, the arrows move the cursor, enter or space selects, others do nothing. */
  predicate MenuKeyResult(m: Model, key: Key, net: seq<Dispatch.Attempt>, m': Model, reply: Reply, effects: seq<Effect>)
    requires Dispatch.MaxAttempts <= |net|
  {
    && (key == Rune('q') ==> m' == m && reply == Quit && effects == [])
    && (IsUp(key) ==> m' == m.(cursor := MoveWithin(m.cursor, -1, MenuSize)) && effects == [] && reply == Continue([]))
    && (IsDown(key) ==> m' == m.(cursor := MoveWithin(m.cursor, 1, MenuSize)) && effects == [] && reply == Continue([]))
    && (IsSelect(key) ==> MenuSelectResult(m, net, m', reply, effects))
    && (key != Rune('q') && !IsUp(key) && !IsDown(key) && !IsSelect(key) ==>
          m' == m && effects == [] && reply == Continue([]))
  }

  /** The main menu: q quits, the cursor moves within the entries, enter or space acts on the entry. */
  method MenuKey(m: Model, key: Key, net: seq<Dispatch.Attempt>) returns (m': Model, reply: Reply, effects: seq<Effect>)
    requires Valid(m) && m.state == MenuView && Dispatch.MaxAttempts <= |net|
    ensures KeyStepKeeps(m, m', effects, net)
    ensures MenuKeyResult(m, key, net, m', reply, effects)
  {
    if key == Rune('q') {
      m', reply, effects := m, Quit, [];
    } else if IsUp(key) || IsDown(key) {
      m' := MoveMenuCursor(m, key, net);
      reply, effects := Continue([]), [];
    } else if IsSelect(key) {
      m', reply, effects := MenuSelect(m, net);
    } else {
      m', reply, effects := m, Continue([]), [];
    }
  }

  /** How far an arrow key moves the colour cursor on the three-wide grid. */
  function GridDelta(key: Key): int
  {
    if IsUp(key) then -3 else if IsDown(key) then 3 else if IsLeft(key) then -1 else if IsRight(key) then 1 else 0
  }

  /** The arrows of the colour grid: a row up or down, a swatch left or right, never off the palette. */
  method MoveColorCursor(m: Model, key: Key, ghost net: seq<Dispatch.Attempt>) returns (m': Model)
    requires Valid(m)
    ensures KeyStepKeeps(m, m', [], net)
    ensures m' == m.(colorCursor := MoveWithin(m.colorCursor, GridDelta(key), PaletteSize))
  {
    var c := m.colorCursor;
    if IsUp(key) {
      if c >= 3 {
        c := c - 3;
      }
    } else if IsDown(key) {
      if c < PaletteSize - 3 {
        c := c + 3;
      }
    } else if IsLeft(key) {
      if c > 0 {
        c := c - 1;
      }
    } else if IsRight(key) {
      if c < PaletteSize - 1 {
        c := c + 1;
      }
    }
    m' := m.(colorCursor := c);
  }

  /**
   * Sending a colour, from the grid or the hex entry: the setPilot command at
   * the current brightness; when it is delivered the colour becomes current,
   * the light is taken as on and `shown` becomes the status, otherwise only the
   * failure is shown.
   */
  method ApplyColor(m: Model, c: HexColor.Rgb, hex: string, shown: Status, net: seq<Dispatch.Attempt>)
    returns (m': Model, effects: seq<Effect>)
    requires Valid(m) && Dispatch.MaxAttempts <= |net|
    ensures KeyStepKeeps(m, m', effects, net)
    ensures effects == [Send(m.ip, m.port, Dispatch.Payload("setPilot", Dispatch.ColorParams(c.r, c.g, c.b, m.brightness)))]
    ensures Dispatch.Delivers(net) ==> m' == m.(currentColor := hex, isOn := true, status := shown)
    ensures !Dispatch.Delivers(net) ==> m'.status.ColorChangeFailed? && m' == m.(status := m'.status)
  {
    var err;
    err, effects := SendFrom(m, "setPilot", Dispatch.ColorParams(c.r, c.g, c.b, m.brightness), net);
    m' := m;
    if err.Some? {
      m' := m'.(status := ColorChangeFailed(err.value));
    } else {
      m' := m'.(currentColor := hex);
      m' := m'.(isOn := true);
      m' := m'.(status := shown);
    }
  }

  /** What a key does in the colour grid: back to the menu, a cursor move, or the swatch sent. */
  predicate ColorKeyResult(m: Model, key: Key, net: seq<Dispatch.Attempt>, m': Model, effects: seq<Effect>)
    requires Valid(m) && Dispatch.MaxAttempts <= |net|
  {
    && (key == Esc || key == Rune('q') ==> m' == m.(state := MenuView) && effects == [])
    && (GridDelta(key) != 0 ==>
        m' == m.(colorCursor := MoveWithin(m.colorCursor, GridDelta(key), PaletteSize)) && effects == [])
    && (key == Enter ==>
        var swatch, c := SwatchAt(m.colorCursor), PaletteColor(m.colorCursor);
        && effects == [Send(m.ip, m.port, Dispatch.Payload("setPilot", Dispatch.ColorParams(c.r, c.g, c.b, m.brightness)))]
        && (Dispatch.Delivers(net) ==>
              m' == m.(state := MenuView, currentColor := swatch.hex, isOn := true, status := ColorNamed(swatch.name)))
        && (!Dispatch.Delivers(net) ==> m'.status.ColorChangeFailed? && m' == m.(state := MenuView, status := m'.status)))
    && (key != Esc && key != Rune('q') && key != Enter && GridDelta(key) == 0 ==> m' == m && effects == [])
  }

  /** The colour grid: esc or q back to the menu, arrows move, enter sends the swatch and returns to the menu. */
  method ColorKey(m: Model, key: Key, net: seq<Dispatch.Attempt>) returns (m': Model, effects: seq<Effect>)
    requires Valid(m) && m.state == ColorPickerView && Dispatch.MaxAttempts <= |net|
    ensures KeyStepKeeps(m, m', effects, net)
    ensures ColorKeyResult(m, key, net, m', effects)
  {
    if key == Esc || key == Rune('q') {
      m', effects := m.(state := MenuView), [];
    } else if IsUp(key) || IsDown(key) || IsLeft(key) || IsRight(key) {
      m' := MoveColorCursor(m, key, net);
      effects := [];
    } else if key == Enter {
      var swatch := SwatchAt(m.colorCursor);
      m', effects := ApplyColor(m, PaletteColor(m.colorCursor), swatch.hex, ColorNamed(swatch.name), net);
      m' := m'.(state := MenuView);
    } else {
      m', effects := m, [];
    }
  }

  /** Enter in the hex view: an invalid colour only reports "Err: Invalid Hex"; a valid one is sent. */
  method SubmitHex(m: Model, net: seq<Dispatch.Attempt>) returns (m': Model, effects: seq<Effect>)
    requires Valid(m) && Dispatch.MaxAttempts <= |net|
    ensures KeyStepKeeps(m, m', effects, net)
    ensures !HexColor.IsColorLiteral(m.input) ==> m' == m.(status := InvalidHex, state := MenuView) && effects == []
    ensures HexColor.IsColorLiteral(m.input) ==>
      var c := HexColor.HexToRGB(m.input).value;
      && effects == [Send(m.ip, m.port, Dispatch.Payload("setPilot", Dispatch.ColorParams(c.r, c.g, c.b, m.brightness)))]
      && (Dispatch.Delivers(net) ==>
            m' == m.(state := MenuView, currentColor := m.input, isOn := true, status := ColorHex(m.input)))
      && (!Dispatch.Delivers(net) ==> m'.status.ColorChangeFailed? && m' == m.(state := MenuView, status := m'.status))
  {
    var value := m.input;
    match HexColor.HexToRGB(value) {
      case Err(_) =>
        m', effects := m.(status := InvalidHex), [];
      case Ok(c) =>
        m', effects := ApplyColor(m, c, value, ColorHex(value), net);
    }
    m' := m'.(state := MenuView);
  }

  /** What a key does in the hex entry: esc back to the menu, enter submits the field, other keys edit it. */
  predicate HexKeyResult(m: Model, key: Key, typed: string, net: seq<Dispatch.Attempt>, m': Model, reply: Reply, effects: seq<Effect>)
    requires Dispatch.MaxAttempts <= |net|
  {
    && (key == Esc ==> m' == m.(state := MenuView) && effects == [] && reply == Continue([]))
    && (key == Enter ==> reply == Continue([]))
    && (key == Enter && !HexColor.IsColorLiteral(m.input) ==>
        m' == m.(status := InvalidHex, state := MenuView) && effects == [])
    && (key == Enter && HexColor.IsColorLiteral(m.input) ==>
        var c := HexColor.HexToRGB(m.input).value;
        && effects == [Send(m.ip, m.port, Dispatch.Payload("setPilot", Dispatch.ColorParams(c.r, c.g, c.b, m.brightness)))]
        && (Dispatch.Delivers(net) ==>
              m' == m.(state := MenuView, currentColor := m.input, isOn := true, status := ColorHex(m.input)))
        && (!Dispatch.Delivers(net) ==> m'.status.ColorChangeFailed? && m' == m.(state := MenuView, status := m'.status)))
    && (key != Esc && key != Enter ==> m' == m.(input := typed) && effects == [] && reply == Continue([InputTask]))
  }

  /** The hex entry: esc back to the menu, enter submits, any other key edits the field. */
  method HexKey(m: Model, key: Key, typed: string, net: seq<Dispatch.Attempt>)
    returns (m': Model, reply: Reply, effects: seq<Effect>)
    requires Valid(m) && m.state == HexInputView && Dispatch.MaxAttempts <= |net|
    ensures KeyStepKeeps(m, m', effects, net)
    ensures HexKeyResult(m, key, typed, net, m', reply, effects)
  {
    if key == Esc {
      m', reply, effects := m.(state := MenuView), Continue([]), [];
    } else if key == Enter {
      m', effects := SubmitHex(m, net);
      reply := Continue([]);
    } else {
      m', reply, effects := m.(input := typed), Continue([InputTask]), [];
    }
  }

  /**
   * A brightness step to `level`: setPilot with that dimming is sent; when it
   * is delivered the level and the status take it, otherwise only the failure
   * is shown.
   */
  predicate BrightnessStepResult(m: Model, level: int, net: seq<Dispatch.Attempt>, m': Model, effects: seq<Effect>)
    requires Dispatch.MaxAttempts <= |net|
  {
    && effects == [Send(m.ip, m.port, Dispatch.Payload("setPilot", Dispatch.DimmingParams(level)))]
    && (Dispatch.Delivers(net) ==> m' == m.(brightness := level, status := Bright(level)))
    && (!Dispatch.Delivers(net) ==> m'.status.BrightnessChangeFailed? && m' == m.(status := m'.status))
  }

  /** Left in the brightness view: down one step unless at 10, reverted when the send fails. */
  method BrightnessDown(m: Model, net: seq<Dispatch.Attempt>) returns (m': Model, effects: seq<Effect>)
    requires Valid(m) && Dispatch.MaxAttempts <= |net|
    ensures KeyStepKeeps(m, m', effects, net)
    ensures m'.brightness == (if m.brightness > 10 && Dispatch.Delivers(net) then m.brightness - BrightnessStep else m.brightness)
    ensures m'.state == m.state
    ensures m.brightness <= 10 ==> m' == m && effects == []
    ensures m.brightness > 10 ==> BrightnessStepResult(m, m.brightness - BrightnessStep, net, m', effects)
  {
    m', effects := m, [];
    if m.brightness > 10 {
      var level := m.brightness - BrightnessStep;
      var status;
      var err;
      err, effects := SendFrom(m, "setPilot", Dispatch.DimmingParams(level), net);
      if err.Some? {
        status := BrightnessChangeFailed(err.value);
        level := level + BrightnessStep;
      } else {
        status := Bright(level);
      }
      m' := m.(brightness := level, status := status);
    }
  }

  /** Right in the brightness view: up one step unless at 100, reverted when the send fails. */
  method BrightnessUp(m: Model, net: seq<Dispatch.Attempt>) returns (m': Model, effects: seq<Effect>)
    requires Valid(m) && Dispatch.MaxAttempts <= |net|
    ensures KeyStepKeeps(m, m', effects, net)
    ensures m'.brightness == (if m.brightness < 100 && Dispatch.Delivers(net) then m.brightness + BrightnessStep else m.brightness)
    ensures m'.state == m.state
    ensures m.brightness >= 100 ==> m' == m && effects == []
    ensures m.brightness < 100 ==> BrightnessStepResult(m, m.brightness + BrightnessStep, net, m', effects)
  {
    m', effects := m, [];
    if m.brightness < 100 {
      var level := m.brightness + BrightnessStep;
      var status;
      var err;
      err, effects := SendFrom(m, "setPilot", Dispatch.DimmingParams(level), net);
      if err.Some? {
        status := BrightnessChangeFailed(err.value);
        level := level - BrightnessStep;
      } else {
        status := Bright(level);
      }
      m' := m.(brightness := level, status := status);
    }
  }

  /** What a key does in the brightness view: esc, q or enter back to the menu, left and right one step within 10..100. */
  predicate BrightnessKeyResult(m: Model, key: Key, net: seq<Dispatch.Attempt>, m': Model, effects: seq<Effect>)
    requires Dispatch.MaxAttempts <= |net|
  {
    && (key == Esc || key == Rune('q') || key == Enter ==> m' == m.(state := MenuView) && effects == [])
    && (IsLeft(key) && m.brightness <= 10 ==> m' == m && effects == [])
    && (IsLeft(key) && m.brightness > 10 ==> BrightnessStepResult(m, m.brightness - BrightnessStep, net, m', effects))
    && (IsRight(key) && m.brightness >= 100 ==> m' == m && effects == [])
    && (IsRight(key) && m.brightness < 100 ==> BrightnessStepResult(m, m.brightness + BrightnessStep, net, m', effects))
    && (key != Esc && key != Rune('q') && key != Enter && !IsLeft(key) && !IsRight(key) ==> m' == m && effects == [])
  }

  /** The brightness view: esc, q or enter back to the menu; left and right step the level. */
  method BrightnessKey(m: Model, key: Key, net: seq<Dispatch.Attempt>) returns (m': Model, effects: seq<Effect>)
    requires Valid(m) && m.state == BrightnessView && Dispatch.MaxAttempts <= |net|
    ensures KeyStepKeeps(m, m', effects, net)
    ensures BrightnessKeyResult(m, key, net, m', effects)
  {
    if key == Esc || key == Rune('q') || key == Enter {
      m', effects := m.(state := MenuView), [];
    } else if IsLeft(key) {
      m', effects := BrightnessDown(m, net);
    } else if IsRight(key) {
      m', effects := BrightnessUp(m, net);
    } else {
      m', effects := m, [];
    }
  }

  /** What the timer entry accepts: strconv.Atoi reads a strictly positive number. */
  predicate StartsTimer(input: string)
  {
    Numbers.Atoi(input).Ok? && Numbers.Atoi(input).value > 0
  }

  /**
   * Enter in the timer view: a positive number of minutes starts the
   * in-process timer, marks it detached and launches the worker, whose
   * failure to start is only reported.
   */
  method SubmitTimer(m: Model, spawnError: Option<string>, ghost net: seq<Dispatch.Attempt>)
    returns (m': Model, reply: Reply, effects: seq<Effect>)
    requires Valid(m)
    ensures KeyStepKeeps(m, m', effects, net)
    ensures StartsTimer(m.input) ==>
      var mins := Numbers.Atoi(m.input).value;
      && m' == m.(state := MenuView, timerActive := true, detachedTimer := true,
                  status := if spawnError.None? then SleepIn(mins) else TimerSpawnFailed(spawnError.value))
      && effects == [Spawn(WorkerArgv(mins, m.ip, m.port))]
      && reply == Continue([AfterDuration(Entry.MinutesDuration(mins)), SpinnerTask])
    ensures !StartsTimer(m.input) ==> m' == m.(state := MenuView) && effects == [] && reply == Continue([])
  {
    m', reply, effects := m, Continue([]), [];
    var value := m'.input;
    var parsed := Numbers.Atoi(value);
    if parsed.Ok? && parsed.value > 0 {
      var mins := parsed.value;
      m' := m'.(timerActive := true);
      m' := m'.(detachedTimer := true);
      m' := m'.(status := SleepIn(mins));
      reply := Continue([AfterDuration(Entry.MinutesDuration(mins)), SpinnerTask]);
      effects := [Spawn(WorkerArgv(mins, m'.ip, m'.port))];
      if spawnError.Some? {
        m' := m'.(status := TimerSpawnFailed(spawnError.value));
      }
    }
    m' := m'.(state := MenuView);
  }

  /** What a key does in the timer entry: esc back, enter starts the timer for a positive count, other keys edit (q also leaves). */
  predicate TimerKeyResult(m: Model, key: Key, typed: string, spawnError: Option<string>, m': Model, reply: Reply, effects: seq<Effect>)
  {
    && (key == Enter && StartsTimer(m.input) ==>
        var mins := Numbers.Atoi(m.input).value;
        && m' == m.(state := MenuView, timerActive := true, detachedTimer := true,
                    status := if spawnError.None? then SleepIn(mins) else TimerSpawnFailed(spawnError.value))
        && effects == [Spawn(WorkerArgv(mins, m.ip, m.port))]
        && reply == Continue([AfterDuration(Entry.MinutesDuration(mins)), SpinnerTask]))
    && (key == Enter && !StartsTimer(m.input) ==> m' == m.(state := MenuView) && effects == [] && reply == Continue([]))
    && (key == Esc ==> m' == m.(state := MenuView) && effects == [] && reply == Continue([]))
    && (key != Enter && key != Esc ==>
        && m' == m.(input := typed, state := if key == Rune('q') then MenuView else m.state)
        && effects == [] && reply == Continue([InputTask]))
  }

  /**
   * The timer entry: esc back to the menu, enter submits, any other key edits
   * the field; esc, q and enter then return to the menu, so q is typed into
   * the field and also leaves.
   */
  method TimerKey(m: Model, key: Key, typed: string, spawnError: Option<string>, ghost net: seq<Dispatch.Attempt>)
    returns (m': Model, reply: Reply, effects: seq<Effect>)
    requires Valid(m) && m.state == TimerInputView
    ensures KeyStepKeeps(m, m', effects, net)
    ensures TimerKeyResult(m, key, typed, spawnError, m', reply, effects)
  {
    if key == Esc {
      m', reply, effects := m.(state := MenuView), Continue([]), [];
    } else if key == Enter {
      m', reply, effects := SubmitTimer(m, spawnError, net);
    } else {
      m', effects := m, [];
      m' := m'.(input := typed);
      reply := Continue([InputTask]);
    }
    if key == Esc || key == Rune('q') || key == Enter {
      m' := m'.(state := MenuView);
    }
  }

  /** Up and down over the discovered devices, never past either end. */
  method MoveDeviceCursor(m: Model, key: Key, ghost net: seq<Dispatch.Attempt>) returns (m': Model)
    requires Valid(m) && (IsUp(key) || IsDown(key))
    ensures KeyStepKeeps(m, m', [], net)
    ensures m' == m.(deviceCursor := MoveWithin(m.deviceCursor, if IsUp(key) then -1 else 1, |m.discoveredDevices|))
  {
    var c := m.deviceCursor;
    if IsUp(key) {
      if c > 0 {
        c := c - 1;
      }
    } else {
      if c < |m.discoveredDevices| - 1 {
        c := c + 1;
      }
    }
    m' := m.(deviceCursor := c);
  }

  /** Enter in the discovery view: the device under the cursor becomes the target IP, when there is one. */
  method SelectDevice(m: Model, ghost net: seq<Dispatch.Attempt>) returns (m': Model)
    requires Valid(m)
    ensures KeyStepKeeps(m, m', [], net)
    ensures |m.discoveredDevices| > 0 ==>
      var d := m.discoveredDevices[m.deviceCursor];
      m' == m.(ip := d.ip, status := Selected(d.name, d.ip), state := MenuView)
    ensures |m.discoveredDevices| == 0 ==> m' == m
  {
    m' := m;
    if |m'.discoveredDevices| > 0 {
      var selected := m'.discoveredDevices[m'.deviceCursor];
      m' := m'.(ip := selected.ip);
      m' := m'.(status := Selected(selected.name, selected.ip));
      m' := m'.(state := MenuView);
    }
  }

  /**
   * What a key does in the discovery view: esc or q back to the menu, r only
   * shows "Discovering", the arrows move over the devices, and enter makes the
   * device under the cursor the target and opens the menu, when there is one.
   */
  predicate DiscoveryKeyResult(m: Model, key: Key, m': Model)
    requires Valid(m)
  {
    && (key == Esc || key == Rune('q') ==> m' == m.(state := MenuView))
    && (key == Rune('r') ==> m' == m.(status := Discovering))
    && (IsUp(key) ==> m' == m.(deviceCursor := MoveWithin(m.deviceCursor, -1, |m.discoveredDevices|)))
    && (IsDown(key) ==> m' == m.(deviceCursor := MoveWithin(m.deviceCursor, 1, |m.discoveredDevices|)))
    && (key == Enter && |m.discoveredDevices| > 0 ==>
          var d := m.discoveredDevices[m.deviceCursor];
          m' == m.(ip := d.ip, status := Selected(d.name, d.ip), state := MenuView))
    && (key == Enter && |m.discoveredDevices| == 0 ==> m' == m)
    && (key != Esc && key != Rune('q') && key != Rune('r') && !IsUp(key) && !IsDown(key) && key != Enter ==> m' == m)
  }

  /** The discovery view: esc or q back to the menu, r marks a refresh, arrows move, enter selects. */
  method DiscoveryKey(m: Model, key: Key, ghost net: seq<Dispatch.Attempt>) returns (m': Model)
    requires Valid(m) && m.state == DiscoveryView
    ensures KeyStepKeeps(m, m', [], net)
    ensures DiscoveryKeyResult(m, key, m')
  {
    if key == Esc || key == Rune('q') {
      m' := m.(state := MenuView);
    } else if key == Rune('r') {
      m' := m.(status := Discovering);
    } else if IsUp(key) || IsDown(key) {
      m' := MoveDeviceCursor(m, key, net);
    } else if key == Enter {
      m' := SelectDevice(m, net);
    } else {
      m' := m;
    }
  }

  /** What a key other than ctrl+c does: the result of the current view's handler; the help view ignores keys. */
  predicate KeyResult(m: Model, key: Key, typed: string, net: seq<Dispatch.Attempt>, spawnError: Option<string>,
                      m': Model, reply: Reply, effects: seq<Effect>)
    requires Valid(m) && Dispatch.MaxAttempts <= |net|
  {
    match m.state
    case SetupView => SetupKeyResult(m, key, typed, m', reply, effects)
    case MenuView => MenuKeyResult(m, key, net, m', reply, effects)
    case ColorPickerView => ColorKeyResult(m, key, net, m', effects) && reply == Continue([])
    case HexInputView => HexKeyResult(m, key, typed, net, m', reply, effects)
    case BrightnessView => BrightnessKeyResult(m, key, net, m', effects) && reply == Continue([])
    case TimerInputView => TimerKeyResult(m, key, typed, spawnError, m', reply, effects)
    case DiscoveryView => DiscoveryKeyResult(m, key, m') && reply == Continue([]) && effects == []
    case HelpView => m' == m && effects == [] && reply == Continue([])
  }

  /** A key press other than ctrl+c: the setup screen first, then the view's own keys; help ignores keys. */
  method KeyUpdate(m: Model, key: Key, typed: string, net: seq<Dispatch.Attempt>, spawnError: Option<string>)
    returns (m': Model, reply: Reply, effects: seq<Effect>)
    requires Valid(m) && Dispatch.MaxAttempts <= |net| && key != CtrlC
    ensures KeyStepKeeps(m, m', effects, net)
    ensures KeyResult(m, key, typed, net, spawnError, m', reply, effects)
    ensures m.state == HelpView ==> m' == m && effects == [] && reply == Continue([])
  {
    if m.state == SetupView {
      m', reply, effects := SetupKey(m, key, typed, net);
    } else if m.state == MenuView {
      m', reply, effects := MenuKey(m, key, net);
    } else if m.state == ColorPickerView {
      m', effects := ColorKey(m, key, net);
      reply := Continue([]);
    } else if m.state == HexInputView {
      m', reply, effects := HexKey(m, key, typed, net);
    } else if m.state == BrightnessView {
      m', effects := BrightnessKey(m, key, net);
      reply := Continue([]);
    } else if m.state == TimerInputView {
      m', reply, effects := TimerKey(m, key, typed, spawnError, net);
    } else if m.state == DiscoveryView {
      m' := DiscoveryKey(m, key, net);
      reply, effects := Continue([]), [];
    } else {
      m', reply, effects := m, Continue([]), [];
    }
  }

  /**
   * `Update`: ctrl+c quits from anywhere; spinner ticks continue only while a
   * timer runs; the finished timer turns the light off; every other key goes
   * to KeyUpdate. Whatever arrives, the invariant holds afterwards.
   */
  method Update(m: Model, msg: Msg, typed: string, net: seq<Dispatch.Attempt>, spawnError: Option<string>)
    returns (m': Model, reply: Reply, effects: seq<Effect>)
    requires Valid(m) && Dispatch.MaxAttempts <= |net|
    ensures Valid(m')
    ensures msg == KeyPress(CtrlC) ==> m' == m && reply == Quit && effects == []
    ensures msg == SpinnerTick ==> m' == m && effects == [] && reply == Continue(if m.timerActive then [SpinnerTask] else [])
    ensures msg == OtherMsg ==> m' == m && effects == [] && reply == Continue([])
    ensures msg == TimerFinished ==>
      && !m'.timerActive && !m'.isOn && reply == Continue([])
      && (effects == [] <==> m.detachedTimer)
      && FinishTimerResult(m, net, m', effects)
    ensures msg.KeyPress? ==> KeyStepKeeps(m, m', effects, net)
    ensures msg.KeyPress? && msg.key != CtrlC ==> KeyResult(m, msg.key, typed, net, spawnError, m', reply, effects)
    ensures m'.discoveredDevices == m.discoveredDevices
  {
    match msg {
      case SpinnerTick =>
        m', reply, effects := m, Continue(if m.timerActive then [SpinnerTask] else []), [];
      case OtherMsg =>
        m', reply, effects := m, Continue([]), [];
      case TimerFinished =>
        m', effects := FinishTimer(m, net);
        reply := Continue([]);
      case KeyPress(key) =>
        if key == CtrlC {
          m', reply, effects := m, Quit, [];
        } else {
          m', reply, effects := KeyUpdate(m, key, typed, net, spawnError);
        }
    }
  }
}
