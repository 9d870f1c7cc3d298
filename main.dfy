/** The `wolfssl` entry point: the first argument names a mode, looked up in
    the `mode_options` table (or given with a leading '-' to the option
    parser), the mode picks one handler, and the handler's result becomes the
    process exit status. The handlers themselves, the option parser and the
    `-d` search are inputs: only the selection and the normalisation of the
    result are modelled. */
module CluMain {
  import opened Common

  /** The mode values of `mode_options`, and the two that only the switch
      names: the legacy RSA sign/verify mode and verbose help. */
  datatype Mode =
    | Ca | Encrypt | Decrypt | Crypt | Benchmark | Hash | Md5
    | CertSha256 | CertSha384 | CertSha512 | X509 | Request | GenKey
    | EcParam | PKey | Rsa | Ecc | Ed25519 | Dgst | Verify | Pkcs12 | Crl
    | Client | Rand | Dsa | Dh | Help | Version | RsaLegacy | Verbose

  /** What reaches the switch: a mode value, or a plain integer such as 0
      (no mode) or WOLFCLU_FATAL_ERROR (no table entry matched). The mode
      values lie outside the range of these integers. */
  datatype Flag = ModeFlag(mode: Mode) | Code(code: int)

  /** One entry of the mode table; `takesArgument` is the getopt `has_arg`. */
  datatype ModeOption = ModeOption(name: string, takesArgument: bool, val: Mode)

  const MODE_OPTIONS: seq<ModeOption> := [
    ModeOption("ca", false, Ca),
    ModeOption("encrypt", true, Encrypt),
    ModeOption("decrypt", true, Decrypt),
    ModeOption("enc", false, Crypt),
    ModeOption("bench", false, Benchmark),
    ModeOption("hash", true, Hash),
    ModeOption("md5", false, Md5),
    ModeOption("sha256", false, CertSha256),
    ModeOption("sha384", false, CertSha384),
    ModeOption("sha512", false, CertSha512),
    ModeOption("x509", false, X509),
    ModeOption("req", false, Request),
    ModeOption("genkey", true, GenKey),
    ModeOption("ecparam", false, EcParam),
    ModeOption("pkey", false, PKey),
    ModeOption("rsa", false, Rsa),
    ModeOption("ecc", false, Ecc),
    ModeOption("ed25519", false, Ed25519),
    ModeOption("dgst", false, Dgst),
    ModeOption("verify", false, Verify),
    ModeOption("pkcs12", false, Pkcs12),
    ModeOption("crl", false, Crl),
    ModeOption("s_client", false, Client),
    ModeOption("rand", false, Rand),
    ModeOption("dsaparam", false, Dsa),
    ModeOption("dhparam", false, Dh),
    ModeOption("help", false, Help),
    ModeOption("h", false, Help),
    ModeOption("v", false, Version),
    ModeOption("version", false, Version)
  ]

  // ---------------------------------------------------------------------
  // getMode
  // ---------------------------------------------------------------------

  /** The position of the first entry named `s`, or |table| when none is. */
  function FirstNamed(table: seq<ModeOption>, s: string): nat {
    if table == [] then 0
    else if table[0].name == s then 0
    else 1 + FirstNamed(table[1..], s)
  }

  /** FirstNamed finds exactly the first entry with that name. */
  lemma {:induction false} FirstNamedSpec(table: seq<ModeOption>, s: string)
    ensures FirstNamed(table, s) <= |table|
    ensures FirstNamed(table, s) < |table| ==> table[FirstNamed(table, s)].name == s
    ensures forall j :: 0 <= j < FirstNamed(table, s) ==> table[j].name != s
    decreases |table|
  {
    if table != [] && table[0].name != s {
      FirstNamedSpec(table[1..], s);
      forall j | 0 <= j < FirstNamed(table, s)
        ensures table[j].name != s
      {
        if j > 0 {
          assert table[j] == table[1..][j - 1];
        }
      }
    }
  }

  /** An entry named `s` that no earlier entry shares is the one found. */
  lemma FirstNamedAt(table: seq<ModeOption>, s: string, i: nat)
    requires i < |table| && table[i].name == s
    requires forall j :: 0 <= j < i ==> table[j].name != s
    ensures FirstNamed(table, s) == i
  {
    FirstNamedSpec(table, s);
  }

  /** The flag getMode returns for its argument (NULL is None) when it
      searches `table`. */
  function LookupIn(table: seq<ModeOption>, arg: Option<string>): Flag {
    match arg
    case None => Code(WOLFCLU_FATAL_ERROR)
    case Some(s) =>
      var i := FirstNamed(table, s);
      if i < |table| then ModeFlag(table[i].val) else Code(WOLFCLU_FATAL_ERROR)
  }

  /** The flag getMode returns when it searches `mode_options`. */
  function Lookup(arg: Option<string>): Flag {
    LookupIn(MODE_OPTIONS, arg)
  }

  /** `strncmp(a, b, n) == 0` for strings holding no NUL. */
  predicate SamePrefix(a: string, b: string, n: nat)
    requires n <= |a| && n <= |b|
  {
    forall k :: 0 <= k < n ==> a[k] == b[k]
  }

  /** The table walk: an entry matches when its name has the argument's
      length and the first that many characters agree. The table is
      `mode_options` at the one call (see MainEntry). */
  method GetMode(table: seq<ModeOption>, arg: Option<string>) returns (flag: Flag)
    ensures flag == LookupIn(table, arg)
  {
    flag := Code(WOLFCLU_FATAL_ERROR);
    if arg.Some? {
      var s := arg.value;
      var argSz := |s|;
      var i := 0;
      while i < |table|
        invariant 0 <= i <= |table|
        invariant forall j :: 0 <= j < i ==> table[j].name != s
      {
        var current := table[i];
        if |current.name| == argSz && SamePrefix(s, current.name, argSz) {
          assert current.name == s;
          FirstNamedAt(table, s, i);
          flag := ModeFlag(current.val);
          return;
        }
        assert current.name != s by {
          if current.name == s {
            assert SamePrefix(s, current.name, argSz);
          }
        }
        i := i + 1;
      }
      FirstNamedSpec(table, s);
    }
  }

  /** The search returns the value of the first entry with that name, and
      WOLFCLU_FATAL_ERROR exactly when no entry has it or the argument is
      NULL. */
  lemma LookupFirstMatch(table: seq<ModeOption>, arg: Option<string>, m: Mode)
    ensures LookupIn(table, arg) == ModeFlag(m) <==>
      && arg.Some?
      && exists i :: 0 <= i < |table| && table[i].name == arg.value && table[i].val == m
           && forall j :: 0 <= j < i ==> table[j].name != arg.value
    ensures LookupIn(table, arg) == Code(WOLFCLU_FATAL_ERROR) <==>
      arg.None? || forall i :: 0 <= i < |table| ==> table[i].name != arg.value
    ensures !LookupIn(table, arg).ModeFlag? ==> LookupIn(table, arg) == Code(WOLFCLU_FATAL_ERROR)
  {
    if arg.Some? {
      var s := arg.value;
      FirstNamedSpec(table, s);
      if LookupIn(table, arg) == ModeFlag(m) {
        assert table[FirstNamed(table, s)].name == s;
      }
      if exists i :: 0 <= i < |table| && table[i].name == s
          && table[i].val == m && forall j :: 0 <= j < i ==> table[j].name != s {
        var i :| 0 <= i < |table| && table[i].name == s
          && table[i].val == m && forall j :: 0 <= j < i ==> table[j].name != s;
        FirstNamedAt(table, s, i);
      }
      if forall i :: 0 <= i < |table| ==> table[i].name != s {
        assert FirstNamed(table, s) == |table|;
      }
    }
  }

  /** An entry whose name no earlier entry has is what the search returns. */
  lemma LookupAt(table: seq<ModeOption>, s: string, i: nat)
    requires i < |table| && table[i].name == s
    requires forall j :: 0 <= j < i ==> table[j].name != s
    ensures LookupIn(table, Some(s)) == ModeFlag(table[i].val)
  {
    FirstNamedAt(table, s, i);
  }

  // Where the words the switch treats specially sit in the table; one
  // lemma per word keeps each search over the literal table small.

  lemma WordV()
    ensures Lookup(Some("v")) == ModeFlag(Version)
  {
    assert forall j :: 0 <= j < 28 ==> MODE_OPTIONS[j].name != "v";
    LookupAt(MODE_OPTIONS, "v", 28);
  }

  lemma WordVersion()
    ensures Lookup(Some("version")) == ModeFlag(Version)
  {
    assert forall j :: 0 <= j < 29 ==> MODE_OPTIONS[j].name != "version";
    LookupAt(MODE_OPTIONS, "version", 29);
  }

  lemma WordHelp()
    ensures Lookup(Some("help")) == ModeFlag(Help)
  {
    assert forall j :: 0 <= j < 26 ==> MODE_OPTIONS[j].name != "help";
    LookupAt(MODE_OPTIONS, "help", 26);
  }

  lemma WordH()
    ensures Lookup(Some("h")) == ModeFlag(Help)
  {
    assert forall j :: 0 <= j < 27 ==> MODE_OPTIONS[j].name != "h";
    LookupAt(MODE_OPTIONS, "h", 27);
  }

  lemma WordEnc()
    ensures Lookup(Some("enc")) == ModeFlag(Crypt)
  {
    assert forall j :: 0 <= j < 3 ==> MODE_OPTIONS[j].name != "enc";
    LookupAt(MODE_OPTIONS, "enc", 3);
  }

  lemma WordRsa()
    ensures Lookup(Some("rsa")) == ModeFlag(Rsa)
  {
    assert forall j :: 0 <= j < 15 ==> MODE_OPTIONS[j].name != "rsa";
    LookupAt(MODE_OPTIONS, "rsa", 15);
  }

  /** "v" and "version" both select the version mode, "help" and "h" both
      select help. */
  lemma Aliases()
    ensures Lookup(Some("v")) == Lookup(Some("version")) == ModeFlag(Version)
    ensures Lookup(Some("help")) == Lookup(Some("h")) == ModeFlag(Help)
  {
    WordV();
    WordVersion();
    WordHelp();
    WordH();
  }

  // ---------------------------------------------------------------------
  // main
  // ---------------------------------------------------------------------

  /** The handler functions main calls; CryptSetup carries the 'e' or 'd'
      passed to wolfCLU_setup, AlgHashSetup the algorithm of wolfCLU_algHashSetup. */
  datatype Handler =
    | CryptSetup(dir: char) | CaSetup | BenchSetup | HashSetup | AlgHashSetup(alg: Mode)
    | CertSetup | RequestSetup | GenKeySetup | EcParamSetup | PKeySetup | DgstSetup
    | X509Verify | CrlVerify | RsaTool | SignVerifySetup | Pkcs12Tool | ClientTool
    | RandTool | DsaParamSetup | DhParamSetup | VersionPrint

  /** What the switch does with the flag. */
  datatype Action = NoModeGiven | Run(handler: Handler) | MainHelp | VerboseHelp | UnknownMode

  /** argv[1] goes to getMode when it exists and does not start with '-'
      (an empty argv[1] starts with NUL); otherwise the flag is what the
      option parser returned, with -rsa turned into the legacy mode. */
  function Selected(argv: seq<string>, parsed: Flag): Flag {
    if |argv| > 1 && (argv[1] == [] || argv[1][0] != '-') then Lookup(Some(argv[1]))
    else if parsed == ModeFlag(Rsa) then ModeFlag(RsaLegacy)
    else parsed
  }

  /** The dispatch switch; `dashD` is whether wolfCLU_checkForArg found -d. */
  function Dispatch(flag: Flag, dashD: bool): Action {
    match flag
    case Code(c) => if c == 0 then NoModeGiven else UnknownMode
    case ModeFlag(m) =>
      match m
      case Crypt => Run(CryptSetup(if dashD then 'd' else 'e'))
      case Encrypt => Run(CryptSetup('e'))
      case Decrypt => Run(CryptSetup('d'))
      case Ca => Run(CaSetup)
      case Benchmark => Run(BenchSetup)
      case Hash => Run(HashSetup)
      case Md5 => Run(AlgHashSetup(Md5))
      case CertSha256 => Run(AlgHashSetup(CertSha256))
      case CertSha384 => Run(AlgHashSetup(CertSha384))
      case CertSha512 => Run(AlgHashSetup(CertSha512))
      case X509 => Run(CertSetup)
      case Request => Run(RequestSetup)
      case GenKey => Run(GenKeySetup)
      case EcParam => Run(EcParamSetup)
      case PKey => Run(PKeySetup)
      case Dgst => Run(DgstSetup)
      case Verify => Run(X509Verify)
      case Crl => Run(CrlVerify)
      case Rsa => Run(RsaTool)
      case RsaLegacy => Run(SignVerifySetup)
      case Ecc => Run(SignVerifySetup)
      case Ed25519 => Run(SignVerifySetup)
      case Pkcs12 => Run(Pkcs12Tool)
      case Client => Run(ClientTool)
      case Rand => Run(RandTool)
      case Dsa => Run(DsaParamSetup)
      case Dh => Run(DhParamSetup)
      case Help => MainHelp
      case Verbose => VerboseHelp
      case Version => Run(VersionPrint)
  }

  /** The value of `ret` after the switch: the handler's result, 0 for no
      mode, WOLFCLU_FATAL_ERROR for an unknown one, and the initial
      WOLFCLU_SUCCESS for the help screens. */
  function Result(act: Action, results: Handler -> int): int {
    match act
    case NoModeGiven => 0
    case Run(h) => results(h)
    case MainHelp => WOLFCLU_SUCCESS
    case VerboseHelp => WOLFCLU_SUCCESS
    case UnknownMode => WOLFCLU_FATAL_ERROR
  }

  /** The process exit status for a result: non-positive results become
      WOLFCLU_FATAL_ERROR, then WOLFCLU_SUCCESS becomes 0. */
  function ExitCode(ret: int): (code: int)
    ensures code == 0 <==> ret == WOLFCLU_SUCCESS
    ensures ret <= 0 ==> code == WOLFCLU_FATAL_ERROR
    ensures ret > 0 && ret != WOLFCLU_SUCCESS ==> code == ret
  {
    var r := if ret <= 0 then WOLFCLU_FATAL_ERROR else ret;
    if r == WOLFCLU_SUCCESS then 0 else r
  }

  /** main: `initOk` is whether wolfCrypt_Init succeeded, `parsed` what
      wolfCLU_GetOpt returns, `dashD` whether -d is on the command line and
      `results` what each handler returns. `act` is the branch the switch
      takes (None when main returns before it) and `helpShown` whether the
      main help screen was printed. */
  method MainEntry(argv: seq<string>, initOk: bool, parsed: Flag, dashD: bool, results: Handler -> int)
    returns (status: int, act: Option<Action>, helpShown: bool)
    ensures !initOk ==> status == -1 && act == None
    ensures initOk ==> act == Some(Dispatch(Selected(argv, parsed), dashD))
    ensures initOk ==> status == ExitCode(Result(act.value, results))
    ensures helpShown <==> |argv| == 1 || (initOk && act.value in {MainHelp, UnknownMode})
  {
    helpShown := |argv| == 1;
    act := None;
    if !initOk {
      status := -1;
      return;
    }
    var flag: Flag;
    if |argv| > 1 && (argv[1] == [] || argv[1][0] != '-') {
      flag := GetMode(MODE_OPTIONS, Some(argv[1]));
    } else {
      flag := parsed;
      if flag == ModeFlag(Rsa) {
        flag := ModeFlag(RsaLegacy);
      }
    }
    var a := Dispatch(flag, dashD);
    act := Some(a);
    var ret := WOLFCLU_SUCCESS;
    match a {
      case NoModeGiven =>
        ret := 0;
      case Run(h) =>
        ret := results(h);
      case MainHelp =>
        helpShown := true;
      case VerboseHelp =>
      case UnknownMode =>
        helpShown := true;
        ret := WOLFCLU_FATAL_ERROR;
    }
    if ret <= 0 {
      ret := WOLFCLU_FATAL_ERROR;
    }
    status := if ret == WOLFCLU_SUCCESS then 0 else ret;
  }

  /** The exit status is 0 exactly when the handler (or the help screen)
      succeeded; a missing or unknown mode and any result <= 0 exit with
      WOLFCLU_FATAL_ERROR, and any other result is the status itself. */
  lemma ExitStatus(argv: seq<string>, parsed: Flag, dashD: bool, results: Handler -> int)
    ensures var act := Dispatch(Selected(argv, parsed), dashD);
      && (ExitCode(Result(act, results)) == 0 <==>
           act in {MainHelp, VerboseHelp} || (act.Run? && results(act.handler) == WOLFCLU_SUCCESS))
      && (act in {NoModeGiven, UnknownMode} ==> ExitCode(Result(act, results)) == WOLFCLU_FATAL_ERROR)
      && (act.Run? && results(act.handler) <= 0 ==> ExitCode(Result(act, results)) == WOLFCLU_FATAL_ERROR)
  {
  }

  /** A word that names no mode prints help and exits fatally. */
  lemma UnknownWordIsFatal(argv: seq<string>, parsed: Flag, dashD: bool, results: Handler -> int)
    requires |argv| > 1 && (argv[1] == [] || argv[1][0] != '-')
    requires forall i :: 0 <= i < |MODE_OPTIONS| ==> MODE_OPTIONS[i].name != argv[1]
    ensures Dispatch(Selected(argv, parsed), dashD) == UnknownMode
    ensures ExitCode(Result(UnknownMode, results)) == WOLFCLU_FATAL_ERROR
  {
    LookupFirstMatch(MODE_OPTIONS, Some(argv[1]), Rsa);
  }

  /** "rsa" as a word runs the RSA key tool. */
  lemma RsaWordRouting(argv: seq<string>, parsed: Flag, dashD: bool)
    requires |argv| > 1 && argv[1] == "rsa"
    ensures Dispatch(Selected(argv, parsed), dashD) == Run(RsaTool)
  {
    var f := Selected(argv, parsed);
    RsaSelected(argv, parsed);
    RsaDispatch(f, dashD);
  }

  lemma RsaDispatch(f: Flag, dashD: bool)
    requires f == ModeFlag(Rsa)
    ensures Dispatch(f, dashD) == Run(RsaTool)
  {
  }

  lemma RsaSelected(argv: seq<string>, parsed: Flag)
    requires |argv| > 1 && argv[1] == "rsa"
    ensures Selected(argv, parsed) == ModeFlag(Rsa)
  {
    WordRsa();
  }

  /** A dashed mode comes from the option parser, and -rsa, -ecc and
      -ed25519 all run the legacy sign/verify setup. */
  lemma DashedRouting(argv: seq<string>, parsed: Flag, dashD: bool)
    requires |argv| <= 1 || (argv[1] != [] && argv[1][0] == '-')
    ensures Selected(argv, parsed) == (if parsed == ModeFlag(Rsa) then ModeFlag(RsaLegacy) else parsed)
    ensures parsed in {ModeFlag(Rsa), ModeFlag(Ecc), ModeFlag(Ed25519)}
      ==> Dispatch(Selected(argv, parsed), dashD) == Run(SignVerifySetup)
  {
  }

  /** "enc" decrypts when -d is present and encrypts otherwise; "encrypt"
      and "decrypt" ignore -d. */
  lemma EncDirection(argv: seq<string>, parsed: Flag, dashD: bool)
    requires |argv| > 1 && argv[1] == "enc"
    ensures Dispatch(Selected(argv, parsed), dashD) == Run(CryptSetup(if dashD then 'd' else 'e'))
  {
    EncSelected(argv, parsed);
  }

  lemma EncSelected(argv: seq<string>, parsed: Flag)
    requires |argv| > 1 && argv[1] == "enc"
    ensures Selected(argv, parsed) == ModeFlag(Crypt)
  {
    WordEnc();
  }
}
