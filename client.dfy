/** wolfCLU_Client, the `s_client` command: it turns each `-connect
    host:port` into `-h host -p port`, adds the fixed flags `-d -x -v d`, and
    hands the argument vector (at most MAX_CLIENT_ARGS entries) to the
    example TLS client, which is not part of this model. The options are
    what wolfCLU_GetOpt reports, in order. */
module Client {
  import opened Common
  import opened CommandLine

  const MAX_CLIENT_ARGS: nat := 10

  /** One result of wolfCLU_GetOpt over `client_options`. */
  datatype ClientOption =
    | Connect(arg: string)   // -connect and its argument
    | HelpOpt                // -help, -h
    | MissingArg             // ':' or '?'
    | OtherOpt               // any other value; ignored

  // ---------------------------------------------------------------------
  // Splitting the connect string
  // ---------------------------------------------------------------------

  /** strcspn(s, ":"): the length of the prefix holding no ':'. */
  function ColonAt(s: string): nat {
    if s == [] then 0
    else if s[0] == ':' then 0
    else 1 + ColonAt(s[1..])
  }

  lemma {:induction false} ColonAtSpec(s: string)
    ensures ColonAt(s) <= |s|
    ensures ColonAt(s) < |s| <==> ':' in s
    ensures ColonAt(s) < |s| ==> s[ColonAt(s)] == ':'
    ensures ':' !in s[..ColonAt(s)]
  {
    if s != [] && s[0] != ':' {
      ColonAtSpec(s[1..]);
      assert s[..ColonAt(s)] == [s[0]] + s[1..][..ColonAt(s[1..])];
      assert s == [s[0]] + s[1..];
    }
  }

  datatype Target = Target(host: string, port: string)

  /** The host is everything before the first ':', the port everything
      after it. */
  function SplitTarget(arg: string): (t: Target)
    requires ':' in arg
    ensures arg == t.host + [':'] + t.port
    ensures ':' !in t.host
  {
    ColonAtSpec(arg);
    var i := ColonAt(arg);
    assert arg == arg[..i] + [':'] + arg[i + 1..];
    Target(arg[..i], arg[i + 1..])
  }

  /** A split is undone by joining with ':', and it is the only split whose
      host holds no ':'. */
  lemma SplitAndJoin(host: string, port: string)
    requires ':' !in host
    ensures SplitTarget(host + [':'] + port) == Target(host, port)
  {
    var arg := host + [':'] + port;
    assert arg[|host|] == ':';
    var t := SplitTarget(arg);
    ColonAtSpec(arg);
    if ColonAt(arg) < |host| {
      assert false;
    }
    if ColonAt(arg) > |host| {
      assert false;
    }
    assert t.host == arg[..|host|] == host;
    assert t.port == arg[|host| + 1..] == port;
  }

  // ---------------------------------------------------------------------
  // The option loop, corrected
  // ---------------------------------------------------------------------

  /** The state of the option loop: stopped by -help, or the result so far
      and the host and port of the accepted -connect. */
  datatype Scan = Helped | Scanning(ret: int, target: Option<Target>)

  /** One option. A -connect without ':' makes the result fatal, and once
      it is fatal no later -connect is taken; a taken -connect replaces an
      earlier one. */
  function Step(st: Scan, o: ClientOption): Scan {
    match st
    case Helped => Helped
    case Scanning(ret, target) =>
      match o
      case HelpOpt => Helped
      case Connect(arg) =>
        if ':' !in arg then Scanning(WOLFCLU_FATAL_ERROR, target)
        else if ret == WOLFCLU_SUCCESS then Scanning(ret, Some(SplitTarget(arg)))
        else st
      case MissingArg => st
      case OtherOpt => st
  }

  function Scanned(opts: seq<ClientOption>): Scan {
    if opts == [] then Scanning(WOLFCLU_SUCCESS, None)
    else Step(Scanned(opts[..|opts| - 1]), opts[|opts| - 1])
  }

  function TargetArgs(t: Option<Target>): seq<string> {
    match t
    case None => []
    case Some(t) => ["-h", t.host, "-p", t.port]
  }

  /** The vector given to the client: the program name, the target, and
      no peer verification, no client certificate, TLS downgrade. */
  function ClientVector(t: Option<Target>): (v: seq<string>)
    ensures |v| <= MAX_CLIENT_ARGS
  {
    ["wolfclu"] + TargetArgs(t) + ["-d", "-x", "-v", "d"]
  }

  lemma {:induction false} HelpedStays(opts: seq<ClientOption>, i: nat)
    requires i <= |opts| && Scanned(opts[..i]) == Helped
    ensures Scanned(opts) == Helped
    decreases |opts| - i
  {
    if i < |opts| {
      assert opts[..i + 1][..i] == opts[..i];
      HelpedStays(opts, i + 1);
    } else {
      assert opts[..i] == opts;
    }
  }

  /** XMALLOC(idx + 1), XMEMCPY of idx characters and the NUL after them. */
  method CopyHost(arg: string, idx: nat) returns (host: array<char>)
    requires idx <= |arg|
    ensures host[..] == CString(arg[..idx])
  {
    host := new char[idx + 1];
    var k := 0;
    while k < idx
      invariant 0 <= k <= idx
      invariant forall j :: 0 <= j < k ==> host[j] == arg[j]
    {
      host[k] := arg[k];
      k := k + 1;
    }
    host[idx] := '\0';
    assert host[..] == CString(arg[..idx]);
  }

  /** The loop's variables stand for the scan state: the vector holds
      the program name and the target's entries, and a host buffer is held
      exactly when a target was taken, holding its host. */
  predicate VectorHolds(clientArgv: array<string>, clientArgc: nat, target: Option<Target>,
                        host: array?<char>, hostHeld: bool)
    reads clientArgv, host
  {
    && clientArgv.Length == MAX_CLIENT_ARGS
    && clientArgc == 1 + |TargetArgs(target)|
    && clientArgv[..clientArgc] == ["wolfclu"] + TargetArgs(target)
    && (hostHeld <==> host != null)
    && (target.Some? <==> host != null)
    && (host != null ==> host[..] == CString(target.value.host))
  }

  /** The WOLFCLU_CONNECT case, corrected: a second host replaces the
      first, whose buffer is freed, and its entries take the same places. */
  method TakeConnect(arg: string, ret0: int, clientArgv: array<string>, clientArgc0: nat,
                     host0: array?<char>, hostHeld0: bool, ghost target0: Option<Target>)
    returns (ret: int, clientArgc: nat, host: array?<char>, hostHeld: bool, ghost target: Option<Target>)
    modifies clientArgv
    requires host0 != clientArgv as object
    requires VectorHolds(clientArgv, clientArgc0, target0, host0, hostHeld0)
    ensures Step(Scanning(ret0, target0), Connect(arg)) == Scanning(ret, target)
    ensures VectorHolds(clientArgv, clientArgc, target, host, hostHeld)
    ensures host != clientArgv as object
  {
    ret, clientArgc, host, hostHeld, target := ret0, clientArgc0, host0, hostHeld0, target0;
    if ':' !in arg {
      ret := WOLFCLU_FATAL_ERROR;
    }
    if ret == WOLFCLU_SUCCESS {
      ColonAtSpec(arg);
      var idx := ColonAt(arg);
      if host != null {
        hostHeld := false;
        clientArgc := 1;
      }
      assert clientArgc == 1;
      ghost var front := clientArgv[..1];
      assert front == ["wolfclu"];
      host := CopyHost(arg, idx);
      hostHeld := true;
      target := Some(SplitTarget(arg));
      clientArgv[1] := "-h";
      clientArgv[2] := arg[..idx];
      clientArgv[3] := "-p";
      clientArgv[4] := arg[idx + 1..];
      clientArgc := 5;
      assert clientArgv[..5] == front + ["-h", arg[..idx], "-p", arg[idx + 1..]];
    }
  }

  /** The command with the two repairs described in README: a second
      -connect frees the first host and replaces its entries instead of
      appending past the end of the vector, and -help frees the host before
      returning. `testArgs` is the vector client_test runs with (None when it
      is not run) and `hostHeld` whether a host buffer is still allocated
      when the command returns. */
  method ClientSetup(opts: seq<ClientOption>) returns (ret: int, testArgs: Option<seq<string>>, hostHeld: bool)
    ensures Scanned(opts) == Helped ==> ret == WOLFCLU_SUCCESS && testArgs == None
    ensures Scanned(opts).Scanning? ==> ret == Scanned(opts).ret
    ensures Scanned(opts).Scanning? ==>
      testArgs == (if ret == WOLFCLU_SUCCESS then Some(ClientVector(Scanned(opts).target)) else None)
    ensures !hostHeld
  {
    ret := WOLFCLU_SUCCESS;
    testArgs := None;
    hostHeld := false;
    var clientArgv := new string[MAX_CLIENT_ARGS];
    var clientArgc: nat := 0;
    clientArgv[clientArgc] := "wolfclu";
    clientArgc := clientArgc + 1;
    var host: array?<char> := null;
    ghost var target: Option<Target> := None;

    var i := 0;
    while i < |opts|
      invariant 0 <= i <= |opts|
      invariant Scanned(opts[..i]) == Scanning(ret, target)
      invariant VectorHolds(clientArgv, clientArgc, target, host, hostHeld)
      invariant host != clientArgv as object
    {
      assert opts[..i + 1][..i] == opts[..i];
      match opts[i] {
        case Connect(arg) =>
          ret, clientArgc, host, hostHeld, target :=
            TakeConnect(arg, ret, clientArgv, clientArgc, host, hostHeld, target);
        case HelpOpt =>
          HelpedStays(opts, i + 1);
          return WOLFCLU_SUCCESS, None, false;
        case MissingArg =>
        case OtherOpt =>
      }
      i := i + 1;
    }
    assert opts[..i] == opts;

    if ret == WOLFCLU_SUCCESS {
      ghost var front := clientArgv[..clientArgc];
      clientArgv[clientArgc] := "-d";
      clientArgv[clientArgc + 1] := "-x";
      clientArgv[clientArgc + 2] := "-v";
      clientArgv[clientArgc + 3] := "d";
      assert clientArgv[..clientArgc] == front;
      clientArgc := clientArgc + 4;
      assert clientArgv[..clientArgc] == front + ["-d", "-x", "-v", "d"];
      testArgs := Some(clientArgv[..clientArgc]);
    }
    if host != null {
      hostHeld := false;
    }
  }

  // ---------------------------------------------------------------------
  // Properties
  // ---------------------------------------------------------------------

  /** One -connect host:port (host without ':') runs the client with
      exactly [wolfclu, -h, host, -p, port, -d, -x, -v, d]: nine entries. */
  lemma OneConnect(host: string, port: string)
    requires ':' !in host
    ensures Scanned([Connect(host + [':'] + port)]) == Scanning(WOLFCLU_SUCCESS, Some(Target(host, port)))
    ensures ClientVector(Some(Target(host, port))) == ["wolfclu", "-h", host, "-p", port, "-d", "-x", "-v", "d"]
    ensures |ClientVector(Some(Target(host, port)))| == 9 < MAX_CLIENT_ARGS
  {
    SplitAndJoin(host, port);
    assert [Connect(host + [':'] + port)][..0] == [];
  }

  /** A -connect without ':' is fatal and stays fatal: the client is not
      run, unless a later -help turns the result into success. */
  lemma {:induction false} NoColonIsFatal(opts: seq<ClientOption>, i: nat)
    requires i < |opts| && opts[i].Connect? && ':' !in opts[i].arg
    requires forall j :: i < j < |opts| ==> opts[j] != HelpOpt
    requires Scanned(opts[..i]).Scanning?
    ensures Scanned(opts).Scanning? && Scanned(opts).ret == WOLFCLU_FATAL_ERROR
    decreases |opts| - i
  {
    assert opts[..i + 1][..i] == opts[..i];
    if i + 1 < |opts| {
      FatalStays(opts, i + 1);
    } else {
      assert opts[..i + 1] == opts;
    }
  }

  lemma {:induction false} FatalStays(opts: seq<ClientOption>, k: nat)
    requires k <= |opts|
    requires Scanned(opts[..k]).Scanning? && Scanned(opts[..k]).ret == WOLFCLU_FATAL_ERROR
    requires forall j :: k <= j < |opts| ==> opts[j] != HelpOpt
    ensures Scanned(opts).Scanning? && Scanned(opts).ret == WOLFCLU_FATAL_ERROR
    decreases |opts| - k
  {
    if k < |opts| {
      assert opts[..k + 1][..k] == opts[..k];
      FatalStays(opts, k + 1);
    } else {
      assert opts[..k] == opts;
    }
  }

  /** -help returns success at once, whatever came before it. */
  lemma HelpSucceeds(opts: seq<ClientOption>, i: nat)
    requires i < |opts| && opts[i] == HelpOpt
    ensures Scanned(opts) == Helped
  {
    assert opts[..i + 1][..i] == opts[..i];
    HelpedStays(opts, i + 1);
  }

  // ---------------------------------------------------------------------
  // The option loop as written
  // ---------------------------------------------------------------------

  /** The loop of the code: each taken -connect allocates a host and
      appends four entries to the vector, whatever it already holds;
      `hosts` counts the host buffers allocated. */
  datatype Raw = Raw(helped: bool, ret: int, written: seq<string>, hosts: nat)

  function RawStep(r: Raw, o: ClientOption): Raw {
    if r.helped then r
    else
      match o
      case HelpOpt => r.(helped := true)
      case Connect(arg) =>
        if ':' !in arg then r.(ret := WOLFCLU_FATAL_ERROR)
        else if r.ret == WOLFCLU_SUCCESS then
          var t := SplitTarget(arg);
          r.(written := r.written + ["-h", t.host, "-p", t.port], hosts := r.hosts + 1)
        else r
      case MissingArg => r
      case OtherOpt => r
  }

  function RawScanned(opts: seq<ClientOption>): Raw {
    if opts == [] then Raw(false, WOLFCLU_SUCCESS, ["wolfclu"], 0)
    else RawStep(RawScanned(opts[..|opts| - 1]), opts[|opts| - 1])
  }

  /** Everything the code writes into clientArgv, in order. */
  function AsWrittenArgs(opts: seq<ClientOption>): seq<string> {
    var r := RawScanned(opts);
    if !r.helped && r.ret == WOLFCLU_SUCCESS then r.written + ["-d", "-x", "-v", "d"] else r.written
  }

  /** Host buffers never freed: -help returns without freeing, and the
      final free releases only the last host. */
  function AsWrittenLeaked(opts: seq<ClientOption>): nat {
    var r := RawScanned(opts);
    if r.helped || r.hosts == 0 then r.hosts else r.hosts - 1
  }

  /** Two -connect options write 13 entries into a 10-entry array and leak
      the first host. */
  lemma TwoConnectsOverflow(a: string, b: string)
    requires ':' in a && ':' in b
    ensures |AsWrittenArgs([Connect(a), Connect(b)])| == 13 > MAX_CLIENT_ARGS
    ensures AsWrittenLeaked([Connect(a), Connect(b)]) == 1
  {
    var opts := [Connect(a), Connect(b)];
    assert opts[..1] == [Connect(a)];
    assert opts[..1][..0] == [];
    var r1 := RawStep(Raw(false, WOLFCLU_SUCCESS, ["wolfclu"], 0), Connect(a));
    assert RawScanned(opts[..1]) == r1;
    assert |r1.written| == 5 && r1.hosts == 1 && r1.ret == WOLFCLU_SUCCESS && !r1.helped;
    assert RawScanned(opts) == RawStep(r1, Connect(b));
  }

  /** -help after a -connect returns without freeing its host. */
  lemma HelpAfterConnectLeaks(a: string)
    requires ':' in a
    ensures AsWrittenLeaked([Connect(a), HelpOpt]) == 1
  {
    var opts := [Connect(a), HelpOpt];
    assert opts[..1] == [Connect(a)];
    assert opts[..1][..0] == [];
    var r1 := RawStep(Raw(false, WOLFCLU_SUCCESS, ["wolfclu"], 0), Connect(a));
    assert RawScanned(opts[..1]) == r1;
    assert r1.hosts == 1 && !r1.helped;
    assert RawScanned(opts) == RawStep(r1, HelpOpt);
  }

  /** While at most one -connect is taken, the code as written and the
      corrected loop agree on the result and on the vector. */
  lemma {:induction false} AsWrittenAgrees(opts: seq<ClientOption>)
    requires RawScanned(opts).hosts <= 1
    ensures RawScanned(opts).helped <==> Scanned(opts) == Helped
    ensures Scanned(opts).Scanning? ==>
      && RawScanned(opts).ret == Scanned(opts).ret
      && RawScanned(opts).written == ["wolfclu"] + TargetArgs(Scanned(opts).target)
      && RawScanned(opts).hosts == (if Scanned(opts).target.Some? then 1 else 0)
    ensures Scanned(opts).Scanning? && Scanned(opts).ret == WOLFCLU_SUCCESS ==>
      AsWrittenArgs(opts) == ClientVector(Scanned(opts).target)
  {
    if opts != [] {
      var init := opts[..|opts| - 1];
      assert RawScanned(init).hosts <= RawScanned(opts).hosts;
      AsWrittenAgrees(init);
    }
  }
}
