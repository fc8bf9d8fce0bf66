/**
 * The command line main.go declares with Go's flag package: `-timer` (int,
 * default 0), `-ip` (string, default ""), `-port` (string, default "38899")
 * and `-off` (bool, default false), read by `flag.Parse` as that package does.
 */
module Flags {
  import opened Results
  import Numbers

  datatype Flags = Flags(timer: int, ip: string, port: string, off: bool)

  const Defaults: Flags := Flags(0, "", "38899", false)

  datatype FlagError =
    | BadSyntax(arg: string)
    | Undefined(name: string)
    | MissingValue(name: string)
    | InvalidValue(name: string, value: string)

  /** flag.Parse ends with the flags and the remaining arguments, a help request, or an error. */
  datatype Parse = Parsed(flags: Flags, rest: seq<string>) | HelpRequested | Failed(error: FlagError)

  /** strconv.ParseBool, used for `-off=<value>`. */
  function ParseBool(s: string): Option<bool>
  {
    if s in ["1", "t", "T", "TRUE", "true", "True"] then Some(true)
    else if s in ["0", "f", "F", "FALSE", "false", "False"] then Some(false)
    else None
  }

  /** Index of the first '=' after the first character of a flag body, or |body|. */
  function EqualsIndex(body: string, i: nat): (k: nat)
    requires 1 <= i <= |body|
    ensures i <= k <= |body|
    ensures k < |body| ==> body[k] == '='
    ensures forall j :: i <= j < k ==> body[j] != '='
    decreases |body| - i
  {
    if i == |body| || body[i] == '=' then i else EqualsIndex(body, i + 1)
  }

  /** A flag body split into its name and the value written after '=', if any. */
  function SplitValue(body: string): (string, Option<string>)
    requires |body| > 0
  {
    var k := EqualsIndex(body, 1);
    if k < |body| then (body[..k], Some(body[k + 1..])) else (body, None)
  }

  /**
   * flag.Parse over the arguments after the program name: stop at the first
   * argument that is not a flag or after "--"; a string or int flag takes its
   * value after '=' or else the next argument, whatever it is; `-off` alone
   * means true; an undefined name other than help or h is an error.
   */
  function ParseFlags(args: seq<string>, f: Flags): Parse
    decreases |args|
  {
    if args == [] then Parsed(f, [])
    else
      var s := args[0];
      if |s| < 2 || s[0] != '-' then Parsed(f, args)
      else if s == "--" then Parsed(f, args[1..])
      else
        var body := if s[1] == '-' then s[2..] else s[1..];
        if body == [] || body[0] == '-' || body[0] == '=' then Failed(BadSyntax(s))
        else
          var (name, value) := SplitValue(body);
          var more := args[1..];
          if name == "off" then
            match value
            case None => ParseFlags(more, f.(off := true))
            case Some(v) =>
              match ParseBool(v)
              case None => Failed(InvalidValue(name, v))
              case Some(b) => ParseFlags(more, f.(off := b))
          else if name == "timer" || name == "ip" || name == "port" then
            if value.None? && more == [] then Failed(MissingValue(name))
            else
              var v := if value.Some? then value.value else more[0];
              var rest := if value.Some? then more else more[1..];
              if name == "timer" then
                match Numbers.Atoi(v)
                case Err(_) => Failed(InvalidValue(name, v))
                case Ok(n) => ParseFlags(rest, f.(timer := n))
              else if name == "ip" then ParseFlags(rest, f.(ip := v))
              else ParseFlags(rest, f.(port := v))
          else if name == "help" || name == "h" then HelpRequested
          else Failed(Undefined(name))
  }

  predicate IsSuffix(rest: seq<string>, args: seq<string>)
  {
    |rest| <= |args| && rest == args[|args| - |rest|..]
  }

  lemma SuffixOfTail(rest: seq<string>, args: seq<string>, n: nat)
    requires n <= |args| && IsSuffix(rest, args[n..])
    ensures IsSuffix(rest, args)
  {
    assert args[n..][|args| - n - |rest|..] == args[|args| - |rest|..];
  }

  /** Parsing consumes a prefix of the arguments: what it leaves is a suffix of them. */
  lemma {:induction false} ParseLeavesSuffix(args: seq<string>, f: Flags)
    ensures ParseFlags(args, f).Parsed? ==> IsSuffix(ParseFlags(args, f).rest, args)
    decreases |args|
  {
    if args == [] || |args[0]| < 2 || args[0][0] != '-' {
    } else if args[0] == "--" {
      assert IsSuffix(args[1..], args);
    } else {
      var s := args[0];
      var body := if s[1] == '-' then s[2..] else s[1..];
      if body != [] && body[0] != '-' && body[0] != '=' {
        var (name, value) := SplitValue(body);
        var more := args[1..];
        var n: nat := if value.None? && (name == "timer" || name == "ip" || name == "port") then 2 else 1;
        if n <= |args| {
          ghost var g := NextFlags(name, value, more, f);
          if g.Some? {
            assert ParseFlags(args, f) == ParseFlags(args[n..], g.value);
            ParseLeavesSuffix(args[n..], g.value);
            if ParseFlags(args, f).Parsed? {
              SuffixOfTail(ParseFlags(args, f).rest, args, n);
            }
          }
        }
      }
    }
  }

  /** The flags after one well-formed flag argument, when parsing goes on past it. */
  ghost function NextFlags(name: string, value: Option<string>, more: seq<string>, f: Flags): Option<Flags>
  {
    if name == "off" then
      match value
      case None => Some(f.(off := true))
      case Some(v) => if ParseBool(v).Some? then Some(f.(off := ParseBool(v).value)) else None
    else if (name == "timer" || name == "ip" || name == "port") && !(value.None? && more == []) then
      var v := if value.Some? then value.value else more[0];
      if name == "timer" then
        if Numbers.Atoi(v).Ok? then Some(f.(timer := Numbers.Atoi(v).value)) else None
      else if name == "ip" then Some(f.(ip := v))
      else Some(f.(port := v))
    else None
  }

  /** A value flag takes the next argument verbatim, even one that looks like a flag. */
  lemma ValueFlagTakesNextArgument(flag: string, v: string, rest: seq<string>, f: Flags)
    requires flag == "--ip" || flag == "--port"
    ensures ParseFlags([flag, v] + rest, f)
      == ParseFlags(rest, if flag == "--ip" then f.(ip := v) else f.(port := v))
  {
    var args := [flag, v] + rest;
    var name := flag[2..];
    assert args[0][2..] == name;
    assert SplitValue(name) == (name, None) by {
      assert EqualsIndex(name, 1) == |name| by {
        if flag == "--ip" {
          assert name == "ip";
          assert EqualsIndex(name, 2) == 2;
        } else {
          assert name == "port";
          assert EqualsIndex(name, 4) == 4;
        }
      }
    }
    assert args[1..][1..] == rest;
  }

  /** `--timer N` sets the timer to N whenever strconv reads N. */
  lemma TimerFlagTakesNextArgument(v: string, rest: seq<string>, f: Flags)
    requires Numbers.Atoi(v).Ok?
    ensures ParseFlags(["--timer", v] + rest, f) == ParseFlags(rest, f.(timer := Numbers.Atoi(v).value))
  {
    var args := ["--timer", v] + rest;
    assert args[0][2..] == "timer";
    assert EqualsIndex("timer", 1) == 5 by {
      assert EqualsIndex("timer", 5) == 5;
    }
    assert args[1..][1..] == rest;
  }

  /** `--off` alone sets off to true. */
  lemma OffFlagAlone(rest: seq<string>, f: Flags)
    ensures ParseFlags(["--off"] + rest, f) == ParseFlags(rest, f.(off := true))
  {
    var args := ["--off"] + rest;
    assert args[0][2..] == "off";
    assert EqualsIndex("off", 1) == 3 by {
      assert EqualsIndex("off", 3) == 3;
    }
    assert args[1..] == rest;
  }
}
