/** wolfCLU_hashSetup, the `-hash <alg>` command: it accepts argv[2] when
    it starts with one of the algorithm names the build enables, opens -in
    and -out, picks the digest size, and calls wolfCLU_hash, whose result
    is an input here. */
module Hash {
  import opened Common
  import opened Text
  import opened CommandLine

  /** Every option whose argv[ret+1] the setup reads (in, out, size) has its value. */
  predicate Valued(line: ArgLine) {
    HasValue(line, "in") && HasValue(line, "out") && HasValue(line, "size")
  }

  /** The build switches the command reads: NO_MD5, NO_SHA, NO_SHA256 (each
      here as "enabled"), WOLFSSL_SHA384, WOLFSSL_SHA512, HAVE_BLAKE2,
      WOLFSSL_BASE64_ENCODE and NO_CODING. */
  datatype Build = Build(md5: bool, sha: bool, sha256: bool, sha384: bool, sha512: bool,
                         blake2: bool, base64Encode: bool, coding: bool)

  const WC_MD5_DIGEST_SIZE: int := 16
  const WC_SHA_DIGEST_SIZE: int := 20
  const WC_SHA256_DIGEST_SIZE: int := 32
  const WC_SHA384_DIGEST_SIZE: int := 48
  const WC_SHA512_DIGEST_SIZE: int := 64
  const BLAKE2B_OUTBYTES: int := 64

  /** The `algs` table of the build, in order. */
  function Algs(b: Build): seq<string> {
    (if b.md5 then ["md5"] else [])
    + (if b.sha then ["sha"] else [])
    + (if b.sha256 then ["sha256"] else [])
    + (if b.sha384 then ["sha384"] else [])
    + (if b.sha512 then ["sha512"] else [])
    + (if b.blake2 then ["blake2b"] else [])
    + (if b.coding then (if b.base64Encode then ["base64enc"] else []) + ["base64dec"] else [])
  }

  /** `word` begins with one of the names in `algs`. */
  predicate AcceptedBy(algs: seq<string>, word: string) {
    exists i :: 0 <= i < |algs| && IsPrefix(algs[i], word)
  }

  /** The loop over `algs`: `strncmp(argv[2], algs[i], strlen(algs[i])) == 0`
      holds when algs[i] is a prefix of argv[2]. */
  method AcceptAlg(algs: seq<string>, word: string) returns (algCheck: bool)
    ensures algCheck <==> AcceptedBy(algs, word)
  {
    algCheck := false;
    for i := 0 to |algs|
      invariant algCheck <==> exists j :: 0 <= j < i && IsPrefix(algs[j], word)
    {
      if IsPrefix(algs[i], word) {
        algCheck := true;
      }
    }
  }

  /** The size before the per-algorithm rules: BLAKE2B_OUTBYTES in a BLAKE2
      build, where -size may replace it by a value from 1 to 64, and 0
      otherwise. */
  function BaseSize(b: Build, sizeArg: Option<string>): int {
    if !b.blake2 then 0
    else match sizeArg
      case None => BLAKE2B_OUTBYTES
      case Some(s) => var v := Atoi(s); if 0 < v <= 64 then v else BLAKE2B_OUTBYTES
  }

  /** The chain of `if` statements after the checks, each overriding the
      ones before it. */
  function RuleSize(b: Build, alg: string, base: int): int {
    var s1 := if b.md5 && IsPrefix("md5", alg) then WC_MD5_DIGEST_SIZE else base;
    var s2 := if b.sha && IsPrefix("sha", alg) then WC_SHA_DIGEST_SIZE else s1;
    var s3 := if b.sha256 && IsPrefix("sha256", alg) then WC_SHA256_DIGEST_SIZE else s2;
    var s4 := if b.sha384 && IsPrefix("sha384", alg) then WC_SHA384_DIGEST_SIZE else s3;
    if b.sha512 && IsPrefix("sha512", alg) then WC_SHA512_DIGEST_SIZE else s4
  }

  /** The statements that set the size after the checks. */
  method DigestSize(b: Build, alg: string, base: int) returns (size: int)
    ensures size == RuleSize(b, alg, base)
  {
    size := base;
    if b.md5 && IsPrefix("md5", alg) {
      size := WC_MD5_DIGEST_SIZE;
    }
    if b.sha && IsPrefix("sha", alg) {
      size := WC_SHA_DIGEST_SIZE;
    }
    if b.sha256 && IsPrefix("sha256", alg) {
      size := WC_SHA256_DIGEST_SIZE;
    }
    if b.sha384 && IsPrefix("sha384", alg) {
      size := WC_SHA384_DIGEST_SIZE;
    }
    if b.sha512 && IsPrefix("sha512", alg) {
      size := WC_SHA512_DIGEST_SIZE;
    }
  }

  /** The call to wolfCLU_hash: input file, output file (None: stdout),
      the algorithm word as given, and the digest size. */
  datatype HashCall = HashCall(input: string, out: Option<string>, alg: string, size: int)

  datatype Report = Report(ret: int, call: Option<HashCall>)

  /** The command's decision table. `readable` are the paths an "rb" open
      succeeds on, `outFiles` those the -out open succeeds on (see Decide's
      two uses), and `hashRet` what wolfCLU_hash returns. */
  function Decide(line: ArgLine, b: Build, readable: set<string>, outFiles: set<string>, hashRet: int): Report
    requires Valued(line) && |line.argv| > 2
  {
    var alg := line.argv[2];
    if Present(line, "help") then Report(WOLFCLU_SUCCESS, None)
    else if !AcceptedBy(Algs(b), alg) then
      Report(WOLFCLU_FATAL_ERROR, None)
    else if Present(line, "in") && ValueOf(line, "in") !in readable then Report(USER_INPUT_ERROR, None)
    else if Present(line, "out") && ValueOf(line, "out") !in outFiles then Report(USER_INPUT_ERROR, None)
    else if !Present(line, "in") then Report(WOLFCLU_FATAL_ERROR, None)
    else
      var sizeArg := if Present(line, "size") then Some(ValueOf(line, "size")) else None;
      var out := if Present(line, "out") then Some(ValueOf(line, "out")) else None;
      Report(hashRet, Some(HashCall(ValueOf(line, "in"), out, alg, RuleSize(b, alg, BaseSize(b, sizeArg)))))
  }
  /** `-hash md5 -help` ends on a flag and is taken: the setup returns
      success without hashing. */
  lemma HelpLine(b: Build, readable: set<string>, outFiles: set<string>, hashRet: int)
    ensures var line := ArgLine(["wolfssl", "-hash", "md5", "-help"], map["help" := 3]);
      Valued(line) && Decide(line, b, readable, outFiles, hashRet) == Report(WOLFCLU_SUCCESS, None)
  {
  }


  /** The code opens -out with mode "rb", so the output file must already
      exist and be readable. */
  function DecideAsWritten(line: ArgLine, b: Build, readable: set<string>, writable: set<string>, hashRet: int): Report
    requires Valued(line) && |line.argv| > 2
  {
    Decide(line, b, readable, readable, hashRet)
  }

  /** The output opened for writing, as the file's log message ("unable to
      open output file") and wolfCLU_hash's use of it call for. */
  function DecideCorrected(line: ArgLine, b: Build, readable: set<string>, writable: set<string>, hashRet: int): Report
    requires Valued(line) && |line.argv| > 2
  {
    Decide(line, b, readable, writable, hashRet)
  }

  /** The setup, corrected to open -out for writing; the size is set by
      successive statements as in the code. */
  method HashSetup(line: ArgLine, b: Build, readable: set<string>, writable: set<string>, hashRet: int)
    returns (ret: int, call: Option<HashCall>)
    requires Valued(line) && |line.argv| > 2
    ensures Report(ret, call) == DecideCorrected(line, b, readable, writable, hashRet)
  {
    call := None;
    var size := 0;
    if b.blake2 {
      size := BLAKE2B_OUTBYTES;
    }
    ret := Search(line, "help");
    if ret > 0 {
      return WOLFCLU_SUCCESS, call;
    }
    var alg := line.argv[2];
    var algCheck := AcceptAlg(Algs(b), alg);
    if !algCheck {
      return WOLFCLU_FATAL_ERROR, call;
    }

    var input: Option<string> := None;
    ret := Search(line, "in");
    if ret > 0 {
      if line.argv[ret + 1] !in readable {
        return USER_INPUT_ERROR, call;
      }
      input := Some(line.argv[ret + 1]);
    }
    var out: Option<string> := None;
    ret := Search(line, "out");
    if ret > 0 {
      if line.argv[ret + 1] !in writable {
        return USER_INPUT_ERROR, call;
      }
      out := Some(line.argv[ret + 1]);
    }

    ret := Search(line, "size");
    if ret > 0 && b.blake2 {
      size := Atoi(line.argv[ret + 1]);
      if size <= 0 || size > 64 {
        size := BLAKE2B_OUTBYTES;
      }
    }
    assert size == BaseSize(b, if Present(line, "size") then Some(ValueOf(line, "size")) else None);

    if input == None {
      return WOLFCLU_FATAL_ERROR, call;
    }

    size := DigestSize(b, alg, size);
    ret := hashRet;
    call := Some(HashCall(input.value, out, alg, size));
  }

  // ---------------------------------------------------------------------
  // Properties
  // ---------------------------------------------------------------------

  /** A word is accepted exactly when it begins with an enabled name:
      "sha256" and "sha1" both pass through "sha", and "shake" too. */
  lemma AcceptsByPrefix(b: Build, word: string, name: string)
    requires name in Algs(b) && IsPrefix(name, word)
    ensures AcceptedBy(Algs(b), word)
  {
    var i :| 0 <= i < |Algs(b)| && Algs(b)[i] == name;
  }

  /** The checks a run must pass to reach wolfCLU_hash. */
  predicate Opens(line: ArgLine, b: Build, readable: set<string>, writable: set<string>)
    requires Valued(line) && |line.argv| > 2
  {
    && AcceptedBy(Algs(b), line.argv[2])
    && Present(line, "in") && ValueOf(line, "in") in readable
    && (Present(line, "out") ==> ValueOf(line, "out") in writable)
  }

  /** Without an accepted algorithm, without -in, or with an -in that does
      not open, nothing is hashed. */
  lemma InputRules(line: ArgLine, b: Build, readable: set<string>, writable: set<string>, hashRet: int)
    requires Valued(line) && |line.argv| > 2 && !Present(line, "help")
    ensures var r := DecideCorrected(line, b, readable, writable, hashRet);
      && (r.call.Some? ==> Present(line, "in") && r.call.value.input == ValueOf(line, "in"))
      && (r.call.Some? ==> r.ret == hashRet && r.call.value.alg == line.argv[2])
      && (r.call.Some? <==> Opens(line, b, readable, writable))
  {
  }

  /** The size rules: later prefix tests override earlier ones, so "sha256"
      gets the SHA-256 size although "sha" matched first; a name no rule
      matches keeps the base size. */
  lemma {:induction false} SizeRules(b: Build, alg: string, base: int)
    ensures b.sha256 && IsPrefix("sha256", alg) ==> RuleSize(b, alg, base) == WC_SHA256_DIGEST_SIZE
    ensures b.sha384 && IsPrefix("sha384", alg) ==> RuleSize(b, alg, base) == WC_SHA384_DIGEST_SIZE
    ensures b.sha512 && IsPrefix("sha512", alg) ==> RuleSize(b, alg, base) == WC_SHA512_DIGEST_SIZE
    ensures b.sha && IsPrefix("sha", alg) && !IsPrefix("sha256", alg) && !IsPrefix("sha384", alg) ==>
              !IsPrefix("sha512", alg) ==> RuleSize(b, alg, base) == WC_SHA_DIGEST_SIZE
    ensures b.md5 && IsPrefix("md5", alg) ==> RuleSize(b, alg, base) == WC_MD5_DIGEST_SIZE
    ensures !IsPrefix("md5", alg) && !IsPrefix("sha", alg) ==> RuleSize(b, alg, base) == base
  {
    if IsPrefix("sha256", alg) || IsPrefix("sha384", alg) || IsPrefix("sha512", alg) {
      assert alg[..3] == "sha";
      assert alg[..3] != "md5";
    }
    if IsPrefix("md5", alg) {
      assert alg[..3] == "md5";
    }
  }

  /** -size counts only in a BLAKE2 build, and a value outside 1..64 falls
      back to BLAKE2B_OUTBYTES. */
  lemma SizeOption(b: Build, s: string)
    ensures b.blake2 && 1 <= Atoi(s) <= 64 ==> BaseSize(b, Some(s)) == Atoi(s)
    ensures b.blake2 && !(1 <= Atoi(s) <= 64) ==> BaseSize(b, Some(s)) == BLAKE2B_OUTBYTES
    ensures !b.blake2 ==> BaseSize(b, Some(s)) == BaseSize(b, None) == 0
    ensures 0 <= BaseSize(b, Some(s)) <= 64
  {
  }

  /** A new output file: the code as written refuses it with
      USER_INPUT_ERROR, the corrected setup hashes into it. */
  lemma NewOutputFile(line: ArgLine, b: Build, readable: set<string>, writable: set<string>, hashRet: int)
    requires Valued(line) && |line.argv| > 2 && !Present(line, "help")
    requires AcceptedBy(Algs(b), line.argv[2])
    requires Present(line, "in") && ValueOf(line, "in") in readable
    requires Present(line, "out") && ValueOf(line, "out") in writable && ValueOf(line, "out") !in readable
    ensures DecideAsWritten(line, b, readable, writable, hashRet) == Report(USER_INPUT_ERROR, None)
    ensures DecideCorrected(line, b, readable, writable, hashRet).call.Some?
    ensures DecideCorrected(line, b, readable, writable, hashRet).call.value.out == Some(ValueOf(line, "out"))
  {
  }
}
