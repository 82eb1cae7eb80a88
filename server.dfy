/**
 * The straight-line decisions of main.go: the command-line flag defaults,
 * the root alias of generated routes, the command line of the restart child
 * and the choice of listener at startup.
 *
 * Spawning the child, duplicating the descriptor, opening the listener and
 * signalling the parent are operating-system calls; their outcomes are
 * inputs and their requests are values.
 */
module Server {
  import opened Common

  /** The three command-line flags. */
  datatype Flags = Flags(port: int, verbose: bool, graceful: bool)

  /** The defaults registered in init: port 80, verbose off, graceful off. */
  const DefaultFlags: Flags := Flags(80, false, false)

  // ---------------------------------------------------------------------------
  // Route registration

  /** Identity of a generated http.HandlerFunc. */
  type HandlerRef = nat

  /** The generated route that is served at the site root instead. */
  const IndexRoute: string := "/public/index"

  /**
   * The registration loop of main over the routes glaze generates: the
   * index route is registered at "/", every other path unchanged. `order`
   * is the map-iteration order, which the source leaves unspecified.
   */
  method RegisterRoutes(generated: map<string, HandlerRef>)
    returns (registered: seq<(string, HandlerRef)>, ghost order: seq<string>)
    ensures forall p :: p in order <==> p in generated
    ensures Distinct(order)
    ensures |registered| == |order|
    ensures forall i :: 0 <= i < |order| ==> registered[i].1 == generated[order[i]]
    ensures forall i :: 0 <= i < |order| && order[i] == IndexRoute ==> registered[i].0 == "/"
    ensures forall i :: 0 <= i < |order| && order[i] != IndexRoute ==> registered[i].0 == order[i]
    ensures IndexRoute in generated ==> ("/", generated[IndexRoute]) in registered
    ensures forall p :: p in generated && p != IndexRoute ==> (p, generated[p]) in registered
  {
    registered := [];
    order := [];
    var remaining := generated.Keys;
    while remaining != {}
      invariant remaining <= generated.Keys
      invariant forall p :: p in order <==> p in generated && p !in remaining
      invariant Distinct(order)
      invariant |registered| == |order|
      invariant forall i :: 0 <= i < |order| ==> registered[i].1 == generated[order[i]]
      invariant forall i :: 0 <= i < |order| && order[i] == IndexRoute ==> registered[i].0 == "/"
      invariant forall i :: 0 <= i < |order| && order[i] != IndexRoute ==> registered[i].0 == order[i]
      decreases remaining
    {
      var path :| path in remaining;
      var handler := generated[path];
      if path == IndexRoute {
        registered := registered + [("/", handler)];
      } else {
        registered := registered + [(path, handler)];
      }
      order := order + [path];
      remaining := remaining - {path};
    }
    forall p | p in generated
      ensures (if p == IndexRoute then "/" else p, generated[p]) in registered
    {
      var i :| 0 <= i < |order| && order[i] == p;
      assert registered[i] == (if p == IndexRoute then "/" else p, generated[p]);
    }
  }

  // ---------------------------------------------------------------------------
  // Formatting and parsing of flag values

  function DigitChar(d: nat): char
    requires d < 10
  {
    (('0' as int) + d) as char
  }

  /** The decimal digits of `n`, without leading zeros. */
  function Digits(n: nat): string
    decreases n
  {
    if n < 10 then [DigitChar(n)] else Digits(n / 10) + [DigitChar(n % 10)]
  }

  /** fmt's %d of an integer. */
  function FormatInt(n: int): string {
    if n < 0 then "-" + Digits(-n) else Digits(n)
  }

  /** fmt's %v of a boolean. */
  function FormatBool(b: bool): string {
    if b then "true" else "false"
  }

  predicate AllDigits(s: string) {
    forall i :: 0 <= i < |s| ==> '0' <= s[i] <= '9'
  }

  function DigitsValue(s: string): nat
    requires AllDigits(s)
    decreases |s|
  {
    if s == [] then 0
    else DigitsValue(s[..|s| - 1]) * 10 + (s[|s| - 1] as int - '0' as int)
  }

  /** The decimal integers the flag package reads back: an optional '-' and digits. */
  function ParseInt(s: string): Option<int> {
    if |s| > 1 && s[0] == '-' && AllDigits(s[1..]) then Some(-(DigitsValue(s[1..]) as int))
    else if |s| > 0 && AllDigits(s) then Some(DigitsValue(s))
    else None
  }

  /** The spellings strconv.ParseBool accepts. */
  function ParseBool(s: string): Option<bool> {
    if s in {"1", "t", "T", "TRUE", "true", "True"} then Some(true)
    else if s in {"0", "f", "F", "FALSE", "false", "False"} then Some(false)
    else None
  }

  lemma {:induction false} DigitsRoundTrip(n: nat)
    ensures |Digits(n)| > 0 && AllDigits(Digits(n))
    ensures DigitsValue(Digits(n)) == n
    decreases n
  {
    if n >= 10 {
      DigitsRoundTrip(n / 10);
      var s := Digits(n / 10) + [DigitChar(n % 10)];
      assert s[..|s| - 1] == Digits(n / 10);
    }
  }

  lemma FormatIntRoundTrip(n: int)
    ensures ParseInt(FormatInt(n)) == Some(n)
  {
    if n < 0 {
      DigitsRoundTrip(-n);
      var s := "-" + Digits(-n);
      assert s[1..] == Digits(-n);
    } else {
      DigitsRoundTrip(n);
    }
  }

  lemma FormatBoolRoundTrip(b: bool)
    ensures ParseBool(FormatBool(b)) == Some(b)
  {
  }

  predicate HasPrefix(s: string, p: string) {
    |p| <= |s| && s[..|p|] == p
  }

  /** One argument in the subset of the flag package's syntax the child is given. */
  function ParseFlag(arg: string, f: Flags): Option<Flags> {
    if HasPrefix(arg, "-port=") then
      match ParseInt(arg[6..])
      case Some(p) => Some(f.(port := p))
      case None => None
    else if HasPrefix(arg, "-verbose=") then
      match ParseBool(arg[9..])
      case Some(v) => Some(f.(verbose := v))
      case None => None
    else if arg == "-graceful" then Some(f.(graceful := true))
    else None
  }

  /** The flags a process started with `args` sees, starting from `f`. */
  function ParseFlags(args: seq<string>, f: Flags): Option<Flags>
    decreases |args|
  {
    if args == [] then Some(f)
    else
      match ParseFlag(args[0], f)
      case Some(g) => ParseFlags(args[1..], g)
      case None => None
  }

  // ---------------------------------------------------------------------------
  // The restart child

  /** A file descriptor. */
  type Fd = nat

  /** The program the child runs, its arguments and the extra files it inherits. */
  datatype Command = Command(path: string, args: seq<string>, extraFiles: seq<Fd>)

  const ChildProgram: string := "./planets"

  /** The descriptor at which the child sees the listener in graceful mode. */
  const InheritedFd: nat := 3

  function ChildArgs(port: int, verbose: bool): (args: seq<string>)
    ensures |args| == 3 && args[2] == "-graceful"
  {
    ["-port=" + FormatInt(port), "-verbose=" + FormatBool(verbose), "-graceful"]
  }

  /** exec.Command("./planets", ...) with ExtraFiles = [dup of the listener]. */

  /** The child reads back the parent's port and verbosity, and graceful mode. */
  lemma ChildFlagsRoundTrip(port: int, verbose: bool)
    ensures ParseFlags(ChildArgs(port, verbose), DefaultFlags) == Some(Flags(port, verbose, true))
  {
    var args := ChildArgs(port, verbose);
    var a0, a1 := "-port=" + FormatInt(port), "-verbose=" + FormatBool(verbose);
    FormatIntRoundTrip(port);
    FormatBoolRoundTrip(verbose);
    assert a0[..6] == "-port=" && a0[6..] == FormatInt(port);
    var f1 := DefaultFlags.(port := port);
    assert ParseFlag(a0, DefaultFlags) == Some(f1);
    assert a1[1] == 'v' && a1[..9] == "-verbose=" && a1[9..] == FormatBool(verbose);
    assert !HasPrefix(a1, "-port=") by {
      assert "-port="[1] == 'p';
    }
    var f2 := f1.(verbose := verbose);
    assert ParseFlag(a1, f1) == Some(f2);
    assert !HasPrefix("-graceful", "-port=") by {
      assert "-graceful"[1] == 'g' && "-port="[1] == 'p';
    }
    assert !HasPrefix("-graceful", "-verbose=") by {
      assert "-graceful"[1] == 'g' && "-verbose="[1] == 'v';
    }
    assert ParseFlag("-graceful", f2) == Some(f2.(graceful := true));
    assert args[1..] == [a1, "-graceful"];
    assert args[1..][1..] == ["-graceful"];
    assert ParseFlags(["-graceful"], f2) == Some(f2.(graceful := true));
    assert ParseFlags([a1, "-graceful"], f1) == Some(f2.(graceful := true));
    assert ParseFlags(args, DefaultFlags) == ParseFlags(args[1..], f1);
  }

  /** os/exec passes ExtraFiles[i] to the child as descriptor 3 + i. */
  function ChildFd(cmd: Command, fd: nat): Option<Fd> {
    if InheritedFd <= fd < InheritedFd + |cmd.extraFiles| then Some(cmd.extraFiles[fd - InheritedFd]) else None
  }

  /**
   * exec.Command("./planets", ...) with ExtraFiles = [dup of the listener]:
   * the child sees the listener at descriptor 3 and no other extra
   * descriptor, and reads the parent's settings back in graceful mode.
   */
  function ChildCommand(port: int, verbose: bool, listenerFile: Fd): (cmd: Command)
    ensures cmd.path == ChildProgram
    ensures ChildFd(cmd, InheritedFd) == Some(listenerFile) && ChildFd(cmd, InheritedFd + 1) == None
    ensures ParseFlags(cmd.args, DefaultFlags) == Some(Flags(port, verbose, true))
  {
    ChildFlagsRoundTrip(port, verbose);
    Command(ChildProgram, ChildArgs(port, verbose), [listenerFile])
  }

  datatype Upgrade = Launched(cmd: Command) | FatalExit(message: string)

  /**
   * upgradeServer: start a child on a duplicate of the listener. `startErr`
   * is what cmd.Start returned; a failure is fatal to the parent.
   */
  function UpgradeServer(port: int, verbose: bool, listenerDup: Fd, startErr: Option<string>): (u: Upgrade)
    ensures u.Launched? <==> startErr.None?
    ensures u.Launched? ==> u.cmd.path == ChildProgram
    ensures u.Launched? ==> ChildFd(u.cmd, InheritedFd) == Some(listenerDup) && ChildFd(u.cmd, InheritedFd + 1) == None
    ensures u.Launched? ==> ParseFlags(u.cmd.args, DefaultFlags) == Some(Flags(port, verbose, true))
    ensures u.FatalExit? ==> u.message == "Graceful restart: Failed to launch, error: " + startErr.value
  {
    match startErr
    case None => Launched(ChildCommand(port, verbose, listenerDup))
    case Some(e) => FatalExit("Graceful restart: Failed to launch, error: " + e)
  }

  // ---------------------------------------------------------------------------
  // Startup: choosing the listener and signalling the parent

  const SIGTERM: int := 15

  datatype ListenerSource = InheritedFile(fd: nat) | NewTcp(network: string, address: string)

  /** Graceful mode takes descriptor 3; otherwise a TCP listener on the port flag. */
  function ListenerSourceFor(f: Flags): (src: ListenerSource)
    ensures src.InheritedFile? <==> f.graceful
    ensures src.InheritedFile? ==> src.fd == InheritedFd
    ensures src.NewTcp? ==> src.network == "tcp" && |src.address| > 1 && src.address[0] == ':' &&
                            ParseInt(src.address[1..]) == Some(f.port)
  {
    FormatIntRoundTrip(f.port);
    assert (":" + FormatInt(f.port))[1..] == FormatInt(f.port);
    if f.graceful then InheritedFile(InheritedFd) else NewTcp("tcp", ":" + FormatInt(f.port))
  }

  datatype Step =
    | OpenListener(source: ListenerSource)
    | Fatal(err: string)
    | SignalParent(pid: int, sig: int)
    | Serve

  /**
   * What main does once the routes are set up: open the listener, stop on
   * an error, in graceful mode send SIGTERM to the parent, then serve.
   * `listenErr` is the error opening the listener gave and `ppid` the
   * parent's process id.
   */
  function StartupSteps(f: Flags, listenErr: Option<string>, ppid: int): (steps: seq<Step>)
    ensures |steps| >= 2 && steps[0] == OpenListener(ListenerSourceFor(f))
    ensures listenErr.Some? ==> Fatal(listenErr.value) in steps
    ensures forall i :: 0 <= i < |steps| && steps[i].Fatal? ==> listenErr == Some(steps[i].err)
    ensures listenErr.Some? ==> forall i :: 0 <= i < |steps| ==> !steps[i].SignalParent? && !steps[i].Serve?
    ensures SignalParent(ppid, SIGTERM) in steps <==> f.graceful && listenErr.None?
    ensures forall i :: 0 <= i < |steps| && steps[i].SignalParent? ==> steps[i] == SignalParent(ppid, SIGTERM)
    ensures listenErr.None? ==> steps[|steps| - 1] == Serve
  {
    var open := OpenListener(ListenerSourceFor(f));
    match listenErr
    case Some(e) => [open, Fatal(e)]
    case None => [open] + (if f.graceful then [SignalParent(ppid, SIGTERM)] else []) + [Serve]
  }

  /**
   * A successful restart hands the listener over: the child parses graceful
   * mode and the parent's settings, opens descriptor 3, which is the
   * duplicate the parent passed, and then sends SIGTERM to the parent.
   */
  lemma RestartHandoff(port: int, verbose: bool, listenerDup: Fd, ppid: int)
    ensures UpgradeServer(port, verbose, listenerDup, None).Launched?
    ensures var cmd := UpgradeServer(port, verbose, listenerDup, None).cmd;
            var flags := ParseFlags(cmd.args, DefaultFlags);
            && flags == Some(Flags(port, verbose, true))
            && ListenerSourceFor(flags.value) == InheritedFile(InheritedFd)
            && ChildFd(cmd, InheritedFd) == Some(listenerDup)
            && SignalParent(ppid, SIGTERM) in StartupSteps(flags.value, None, ppid)
  {
    ChildFlagsRoundTrip(port, verbose);
  }

  /** A process started by hand with `-port=p` listens on a new TCP socket on ":p". */
  lemma FreshStartListensOnPort(port: int, ppid: int)
    ensures var flags := ParseFlags(["-port=" + FormatInt(port)], DefaultFlags);
            && flags == Some(Flags(port, false, false))
            && StartupSteps(flags.value, None, ppid) ==
               [OpenListener(NewTcp("tcp", ":" + FormatInt(port))), Serve]
  {
    var a0 := "-port=" + FormatInt(port);
    FormatIntRoundTrip(port);
    assert a0[..6] == "-port=" && a0[6..] == FormatInt(port);
    assert ParseFlag(a0, DefaultFlags) == Some(Flags(port, false, false));
  }
}
