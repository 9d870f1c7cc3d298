/** wolfCLU_sign_verify_setup, the legacy `-rsa` / `-ecc` / `-ed25519` sign
    and verify command: it picks the algorithm, checks the options, copies
    the key, input and signature paths into buffers of their own, and hands
    them to wolfCLU_sign_data or wolfCLU_verify_signature, whose results are
    inputs here. `files` are the paths access(path, F_OK) finds. */
module SignVerify {
  import opened Common
  import opened CommandLine

  /** Every option whose argv[ret+1] the setup reads (-inkey, -in, -sigfile, -out) has its value. */
  predicate Valued(line: ArgLine) {
    HasValue(line, "-inkey") && HasValue(line, "-in") && HasValue(line, "-sigfile") && HasValue(line, "-out")
  }

  /** algCheck: RSA_SIG_VER, ED25519_SIG_VER or ECC_SIG_VER. */
  datatype Alg = RsaSigVer | Ed25519SigVer | EccSigVer

  /** The call that ends the setup, with the buffers it is given: each copy
      holds the option's value followed by a NUL; None is a NULL pointer. */
  datatype Work =
    | SignData(input: Option<seq<char>>, out: Option<string>, priv: seq<char>, alg: Alg)
    | VerifySignature(sig: Option<seq<char>>, input: Option<seq<char>>, out: Option<string>,
                      priv: seq<char>, alg: Alg, pubIn: bool)

  datatype Report = Report(ret: int, work: Option<Work>)

  /** The heap copies the setup allocates. */
  datatype Buf = PrivBuf | InBuf | SigBuf

  /** -rsa wins over -ed25519, which wins over -ecc. */
  function AlgOf(line: ArgLine): Option<Alg> {
    if Present(line, "-rsa") then Some(RsaSigVer)
    else if Present(line, "-ed25519") then Some(Ed25519SigVer)
    else if Present(line, "-ecc") then Some(EccSigVer)
    else None
  }

  /** An option that is present names a file that does not exist. */
  predicate MissingFile(line: ArgLine, files: set<string>, name: string)
    requires HasValue(line, name)
  {
    Present(line, name) && ValueOf(line, name) !in files
  }

  /** The copy of an optional path option, None when it is absent. */
  function Copied(line: ArgLine, name: string): Option<seq<char>>
    requires HasValue(line, name)
  {
    if Present(line, name) then Some(CString(ValueOf(line, name))) else None
  }

  /** The decision table of the setup, check by check in the order of the
      code; `signRet` and `verifyRet` are what the two workers return. Where
      the code returns `ret` it returns the last wolfCLU_checkForArg result. */
  function Decide(line: ArgLine, files: set<string>, signRet: int, verifyRet: int): Report
    requires Valued(line)
  {
    match AlgOf(line)
    case None => Report(WOLFCLU_FATAL_ERROR, None)
    case Some(alg) =>
      if Present(line, "-help") then Report(0, None)
      else if !Present(line, "-inkey") then Report(Search(line, "-inkey"), None)
      else if MissingFile(line, files, "-inkey") then Report(MEMORY_E, None)
      else WithKey(line, files, alg, signRet, verifyRet)
  }

  /** The checks after the key was copied. */
  function WithKey(line: ArgLine, files: set<string>, alg: Alg, signRet: int, verifyRet: int): Report
    requires Valued(line) && Present(line, "-inkey")
  {
    var verify := Present(line, "-verify");
    if MissingFile(line, files, "-in") then Report(MEMORY_E, None)
    else if MissingFile(line, files, "-sigfile") then Report(MEMORY_E, None)
    else if !Present(line, "-sigfile") && verify then Report(Search(line, "-sigfile"), None)
    else if !Present(line, "-out") && (alg == RsaSigVer || (alg == EccSigVer && !verify)) then
      Report(Search(line, "-out"), None)
    else if !Present(line, "-in") && !(alg == RsaSigVer && verify) then
      Report(WOLFCLU_FATAL_ERROR, None)
    else
      var priv := CString(ValueOf(line, "-inkey"));
      var out := if Present(line, "-out") then Some(ValueOf(line, "-out")) else None;
      if Present(line, "-sign") then
        Report(signRet, Some(SignData(Copied(line, "-in"), out, priv, alg)))
      else if verify then
        Report(verifyRet, Some(VerifySignature(Copied(line, "-sigfile"), Copied(line, "-in"),
                                               out, priv, alg, Present(line, "-pubin"))))
      else
        Report(Search(line, "-out"), None)
  }

  /** The frees of a return path: `priv` always, `in` and `sig` when they
      were allocated (`if (in) XFREE(in, ...)`). */
  function Release(held: set<Buf>, hasIn: bool, hasSig: bool): set<Buf> {
    held - {PrivBuf} - (if hasIn then {InBuf} else {}) - (if hasSig then {SigBuf} else {})
  }

  /** The setup as written: flags are set one by one, each copy is
      allocated before its file is checked, and every return frees what has
      been allocated; `held` is what is still allocated when it returns. */
  method SignVerifySetup(line: ArgLine, files: set<string>, signRet: int, verifyRet: int)
    returns (ret: int, work: Option<Work>, held: set<Buf>)
    requires Valued(line)
    ensures Report(ret, work) == Decide(line, files, signRet, verifyRet)
    ensures held == {}
  {
    work := None;
    held := {};
    var alg: Alg;
    if Search(line, "-rsa") > 0 {
      alg := RsaSigVer;
    } else if Search(line, "-ed25519") > 0 {
      alg := Ed25519SigVer;
    } else if Search(line, "-ecc") > 0 {
      alg := EccSigVer;
    } else {
      return WOLFCLU_FATAL_ERROR, work, held;
    }
    var signCheck := Search(line, "-sign") > 0;
    var verifyCheck := Search(line, "-verify") > 0;
    if Search(line, "-help") > 0 {
      return 0, work, held;
    }

    ret := Search(line, "-inkey");
    if ret <= 0 {
      return;
    }
    held := held + {PrivBuf};
    if line.argv[ret + 1] !in files {
      held := held - {PrivBuf};
      return MEMORY_E, work, held;
    }
    var priv := CopyArg(line.argv[ret + 1]);
    ret, work, held := CopyAndRun(line, files, alg, signCheck, verifyCheck, priv, signRet, verifyRet);
  }

  /** The rest of the setup once the key is copied into `priv`, which it
      frees on every return with the other copies. */
  method CopyAndRun(line: ArgLine, files: set<string>, alg: Alg, signCheck: bool, verifyCheck: bool,
                    priv: array<char>, signRet: int, verifyRet: int)
    returns (ret: int, work: Option<Work>, held: set<Buf>)
    requires Valued(line) && Present(line, "-inkey")
    requires signCheck == Present(line, "-sign") && verifyCheck == Present(line, "-verify")
    requires priv[..] == CString(ValueOf(line, "-inkey"))
    ensures Report(ret, work) == WithKey(line, files, alg, signRet, verifyRet)
    ensures held == {}
  {
    work := None;
    held := {PrivBuf};

    var pubInCheck := Search(line, "-pubin") > 0;

    var input: array?<char> := null;
    ret := Search(line, "-in");
    if ret > 0 {
      held := held + {InBuf};
      if line.argv[ret + 1] !in files {
        held := held - {InBuf};
        held := Release(held, false, false);
        return MEMORY_E, work, held;
      }
      input := CopyArg(line.argv[ret + 1]);
    }

    var sig: array?<char> := null;
    ret := Search(line, "-sigfile");
    if ret > 0 {
      held := held + {SigBuf};
      if line.argv[ret + 1] !in files {
        held := Release(held, input != null, false);
        held := held - {SigBuf};
        return MEMORY_E, work, held;
      }
      sig := CopyArg(line.argv[ret + 1]);
    } else if verifyCheck {
      held := Release(held, input != null, sig != null);
      return;
    }

    var out: Option<string> := None;
    ret := Search(line, "-out");
    if ret > 0 {
      out := Some(line.argv[ret + 1]);
    } else if alg == RsaSigVer || (alg == EccSigVer && !verifyCheck) {
      held := Release(held, input != null, sig != null);
      return;
    }

    if input == null && !(alg == RsaSigVer && verifyCheck) {
      held := Release(held, input != null, sig != null);
      return WOLFCLU_FATAL_ERROR, work, held;
    }

    var inCopy := if input == null then None else Some(input[..]);
    if signCheck {
      ret := signRet;
      work := Some(SignData(inCopy, out, priv[..], alg));
    } else if verifyCheck {
      var sigCopy := if sig == null then None else Some(sig[..]);
      ret := verifyRet;
      work := Some(VerifySignature(sigCopy, inCopy, out, priv[..], alg, pubInCheck));
    }
    held := Release(held, input != null, sig != null);
  }

  // ---------------------------------------------------------------------
  // Properties of the decision table
  // ---------------------------------------------------------------------

  /** Without one of the three algorithm options the setup is fatal; with
      several, the worker gets the one of highest priority. */
  lemma AlgorithmPriority(line: ArgLine, files: set<string>, signRet: int, verifyRet: int)
    requires Valued(line)
    ensures var r := Decide(line, files, signRet, verifyRet);
      && (!Present(line, "-rsa") && !Present(line, "-ed25519") && !Present(line, "-ecc") ==>
            r == Report(WOLFCLU_FATAL_ERROR, None))
      && (r.work.Some? ==> r.work.value.alg == AlgOf(line).value)
      && (r.work.Some? ==> (r.work.value.alg == RsaSigVer <==> Present(line, "-rsa")))
      && (r.work.Some? ==> (r.work.value.alg == EccSigVer <==>
           Present(line, "-ecc") && !Present(line, "-rsa") && !Present(line, "-ed25519")))
  {
  }

  /** -help with an algorithm returns 0 and runs nothing, whatever else is
      given. */
  lemma HelpReturnsZero(line: ArgLine, files: set<string>, signRet: int, verifyRet: int)
    requires Valued(line) && AlgOf(line).Some? && Present(line, "-help")
    ensures Decide(line, files, signRet, verifyRet) == Report(0, None)
  {
  }
  /** `-rsa -help` ends on a flag and is taken: the setup returns 0. */
  lemma HelpLine(files: set<string>, signRet: int, verifyRet: int)
    ensures var line := ArgLine(["wolfssl", "-rsa", "-help"], map["-rsa" := 1, "-help" := 2]);
      Valued(line) && Decide(line, files, signRet, verifyRet) == Report(0, None)
  {
  }


  /** Nothing runs without -inkey naming an existing file: a missing option
      returns the search result (never positive), a missing file MEMORY_E.
      A worker that runs gets the key path with its NUL. */
  lemma KeyIsMandatory(line: ArgLine, files: set<string>, signRet: int, verifyRet: int)
    requires Valued(line)
    ensures var r := Decide(line, files, signRet, verifyRet);
      && (AlgOf(line).Some? && !Present(line, "-help") && !Present(line, "-inkey") ==>
            r.ret <= 0 && r.work == None)
      && (AlgOf(line).Some? && !Present(line, "-help") && MissingFile(line, files, "-inkey") ==>
            r == Report(MEMORY_E, None))
      && (r.work.Some? ==>
            Present(line, "-inkey") && ValueOf(line, "-inkey") in files
            && r.work.value.priv == CString(ValueOf(line, "-inkey")))
  {
  }

  /** Verifying always needs -sigfile, even when -sign is also given; the
      verifier gets the signature path with its NUL. */
  lemma SigFileForVerify(line: ArgLine, files: set<string>, signRet: int, verifyRet: int)
    requires Valued(line)
    ensures var r := Decide(line, files, signRet, verifyRet);
      && (Present(line, "-verify") && !Present(line, "-sigfile") ==> r.work == None)
      && (r.work.Some? && r.work.value.VerifySignature? ==>
           r.work.value.sig == Some(CString(ValueOf(line, "-sigfile"))))
  {
  }

  /** The worker runs without -out only for ECC verification and for
      Ed25519. */
  lemma OutRequirement(line: ArgLine, files: set<string>, signRet: int, verifyRet: int)
    requires Valued(line)
    ensures var r := Decide(line, files, signRet, verifyRet);
      && (r.work.Some? && !Present(line, "-out") ==>
           r.work.value.alg == Ed25519SigVer || (r.work.value.alg == EccSigVer && Present(line, "-verify")))
      && (r.work.Some? ==> r.work.value.out == (if Present(line, "-out") then Some(ValueOf(line, "-out")) else None))
  {
  }

  /** The worker runs without -in only when RSA verification was asked for;
      the input path otherwise arrives with its NUL. */
  lemma InputRequirement(line: ArgLine, files: set<string>, signRet: int, verifyRet: int)
    requires Valued(line)
    ensures var r := Decide(line, files, signRet, verifyRet);
      && (r.work.Some? && !Present(line, "-in") ==>
           r.work.value.alg == RsaSigVer && Present(line, "-verify") && r.work.value.input == None)
      && (r.work.Some? && Present(line, "-in") ==> r.work.value.input == Some(CString(ValueOf(line, "-in"))))
  {
  }

  /** -sign wins over -verify, and the result is the chosen worker's. With
      neither, nothing runs and the result is the -out search. */
  lemma SignBeforeVerify(line: ArgLine, files: set<string>, signRet: int, verifyRet: int)
    requires Valued(line)
    ensures var r := Decide(line, files, signRet, verifyRet);
      && (r.work.Some? && Present(line, "-sign") ==> r.work.value.SignData? && r.ret == signRet)
      && (r.work.Some? && !Present(line, "-sign") ==> r.work.value.VerifySignature? && r.ret == verifyRet)
      && (r.work.Some? ==> Present(line, "-sign") || Present(line, "-verify"))
  {
  }

  /** A complete valid request reaches its worker: an algorithm, no -help,
      every named file present, and the options its algorithm and direction
      need. */
  lemma WorkerRuns(line: ArgLine, files: set<string>, signRet: int, verifyRet: int)
    requires Valued(line) && AlgOf(line).Some? && !Present(line, "-help")
    requires Present(line, "-inkey") && Present(line, "-in") && Present(line, "-out")
    requires !MissingFile(line, files, "-inkey") && !MissingFile(line, files, "-in")
    requires !MissingFile(line, files, "-sigfile")
    requires Present(line, "-verify") ==> Present(line, "-sigfile")
    requires Present(line, "-sign") || Present(line, "-verify")
    ensures Decide(line, files, signRet, verifyRet).work.Some?
  {
  }
}
