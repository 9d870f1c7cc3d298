/** wolfCLU_requestSetup, the `req` command: it reads the options, starts
    from a new document or from a request read with -in, applies the dates,
    the key, a config file and -subj in that order, signs when something was
    generated or changed, optionally verifies and prints, and writes the
    certificate or request. Every wolfSSL call is an input fixed in advance
    (a Lib), and the output BIO is a Sink. */
module Request {
  import opened Common
  import opened Text
  import opened Document
  import opened Output
  import Config
  import RequestPrint

  // ---------------------------------------------------------------------
  // Options
  // ---------------------------------------------------------------------

  /** The options of `req` as wolfCLU_GetOpt reports them, with -inform and
      -outform already mapped by wolfCLU_checkInform / wolfCLU_checkOutform. */
  datatype ReqOption =
    | Extensions(section: string)   // -extensions
    | InFile(path: string)          // -in
    | KeyFile(path: string)         // -key
    | OutFile(path: string)         // -out
    | Inform(form: Form)
    | Outform(form: Form)
    | Subject(subj: string)         // -subj
    | Help
    | Rsa                           // sets algCheck, which nothing reads
    | Ed25519                       // likewise
    | ConfigFile(path: string)      // -config
    | Days(count: string)           // -days, read with atoi
    | CertSha(digest: Digest)       // -sha, -sha224, -sha256, -sha384, -sha512
    | X509                          // -x509
    | Verify                        // -verify
    | TextOut                       // -text
    | NoOut                         // -noout
    | New                           // -new, accepted and ignored
    | Unexpected                    // ':' or '?': a missing argument or an unknown option
    | Unsupported                   // a table entry the switch has no case for

  /** What the library calls of the command return. */
  datatype Lib = Lib(
    readable: set<string>,                // wolfSSL_BIO_new_file(path, "rb") opens
    writable: set<string>,                // wolfSSL_BIO_new_file(path, "wb") opens
    pemRequests: map<string, Doc>,        // wolfSSL_PEM_read_bio_X509_REQ decodes the file
    derRequests: map<string, Doc>,        // wolfSSL_d2i_X509_REQ_bio decodes the file
    privateKeys: map<string, Key>,        // wolfSSL_PEM_read_bio_PrivateKey reads the file
    configs: map<string, Config.Conf>,    // wolfSSL_NCONF_load parses the file
    names: map<string, seq<NameEntry>>,   // wolfCLU_ParseX509NameString accepts the string
    prompted: seq<NameEntry>,             // the name wolfCLU_CreateX509Name reads from the user
    hashes: map<Key, seq<byte>>,          // subject key identifiers (see Config)
    ips: map<string, seq<byte>>,          // wolfSSL_a2i_IPADDRESS (see Config)
    now: int,                             // time(NULL)
    timeOk: bool,                         // wolfSSL_ASN1_TIME_adj succeeds
    docAllocOk: bool,                     // wolfSSL_X509_new succeeds
    nameAllocOk: bool,                    // wolfSSL_X509_NAME_new succeeds
    pubKeyOk: bool,                       // wolfSSL_X509_set_pubkey succeeds
    signOk: bool,                         // wolfSSL_X509_sign / wolfSSL_X509_REQ_sign succeed
    verifyOk: bool,                       // wolfSSL_X509_REQ_verify's verdict
    room: nat)                            // writes the output BIO accepts

  /** The variables the option loop sets. */
  datatype Args = Args(
    ret: int, help: bool,
    ext: Option<string>, reqIn: Option<string>, keyIn: Option<string>, out: Option<string>,
    inForm: Form, outForm: Form, subj: Option<string>, config: Option<string>,
    days: int, md: Option<Digest>,
    genX509: bool, doVerify: bool, doTextOut: bool, noOut: bool)

  function InitialArgs(): Args {
    Args(WOLFCLU_SUCCESS, false, None, None, None, None, PemForm, PemForm, None, None,
         0, None, false, false, false, false)
  }

  /** What one option does, field by field: each variable is set by its own
      option and kept by every other. -in and -key open their file at once;
      an open that fails leaves the BIO NULL and makes the result fatal, and
      so do ':', '?' and a table entry the switch has no case for. */
  function Apply(a: Args, o: ReqOption, lib: Lib): Args {
    Args(
      ret := if Fails(o, lib) then WOLFCLU_FATAL_ERROR else a.ret,
      help := a.help || o.Help?,
      ext := if o.Extensions? then Some(o.section) else a.ext,
      reqIn := if o.InFile? then Opened(o.path, lib) else a.reqIn,
      keyIn := if o.KeyFile? then Opened(o.path, lib) else a.keyIn,
      out := if o.OutFile? then Some(o.path) else a.out,
      inForm := if o.Inform? then o.form else a.inForm,
      outForm := if o.Outform? then o.form else a.outForm,
      subj := if o.Subject? then Some(o.subj) else a.subj,
      config := if o.ConfigFile? then Some(o.path) else a.config,
      days := if o.Days? then Atoi(o.count) else a.days,
      md := if o.CertSha? then Some(o.digest) else a.md,
      genX509 := a.genX509 || o.X509?,
      doVerify := a.doVerify || o.Verify?,
      doTextOut := a.doTextOut || o.TextOut?,
      noOut := a.noOut || o.NoOut?)
  }

  /** The BIO wolfSSL_BIO_new_file(path, "rb") returns. */
  function Opened(path: string, lib: Lib): Option<string> {
    if path in lib.readable then Some(path) else None
  }

  /** The options that make the result fatal. */
  predicate Fails(o: ReqOption, lib: Lib) {
    || ((o.InFile? || o.KeyFile?) && o.path !in lib.readable)
    || o.Unexpected? || o.Unsupported?
  }

  /** The option loop: every option in order, up to -help, which returns. */
  function Options(opts: seq<ReqOption>, lib: Lib, a: Args): Args {
    if opts == [] || a.help then a else Options(opts[1..], lib, Apply(a, opts[0], lib))
  }

  /** The getopt loop of wolfCLU_requestSetup. */
  method ReadOptions(opts: seq<ReqOption>, lib: Lib) returns (a: Args)
    ensures a == Options(opts, lib, InitialArgs())
  {
    a := InitialArgs();
    var i := 0;
    while i < |opts|
      invariant 0 <= i <= |opts| && !a.help
      invariant Options(opts[i..], lib, a) == Options(opts, lib, InitialArgs())
    {
      assert opts[i..][1..] == opts[i + 1..];
      a := Apply(a, opts[i], lib);
      if a.help {
        return;   // -help: wolfCLU_certgenHelp(); return WOLFCLU_SUCCESS;
      }
      i := i + 1;
    }
  }

  /** The digest of the last -sha* option, if any: an independent reading of
      "later digest options override earlier ones". */
  function LastDigest(opts: seq<ReqOption>): Option<Digest> {
    if opts == [] then None
    else if opts[|opts| - 1].CertSha? then Some(opts[|opts| - 1].digest)
    else LastDigest(opts[..|opts| - 1])
  }

  predicate NoHelp(opts: seq<ReqOption>) {
    forall k :: 0 <= k < |opts| ==> !opts[k].Help?
  }

  /** Reading one more option after the others is one more switch case. */
  lemma {:induction false} OptionsSnoc(opts: seq<ReqOption>, o: ReqOption, lib: Lib, a: Args)
    requires !Options(opts, lib, a).help
    ensures Options(opts + [o], lib, a) == Apply(Options(opts, lib, a), o, lib)
    decreases |opts|
  {
    if opts == [] {
      assert [] + [o] == [o] && [o][1..] == [];
    } else {
      assert (opts + [o])[1..] == opts[1..] + [o];
      OptionsSnoc(opts[1..], o, lib, Apply(a, opts[0], lib));
    }
  }

  /** Only -help sets the help flag. */
  lemma {:induction false} OptionsHelp(opts: seq<ReqOption>, lib: Lib, a: Args)
    ensures Options(opts, lib, a).help <==> a.help || !NoHelp(opts)
    decreases |opts|
  {
    if opts != [] && !a.help {
      OptionsHelp(opts[1..], lib, Apply(a, opts[0], lib));
      if !NoHelp(opts[1..]) {
        var k :| 0 <= k < |opts[1..]| && opts[1..][k].Help?;
        assert opts[k + 1].Help?;
      }
      if NoHelp(opts[1..]) && !opts[0].Help? {
        assert NoHelp(opts) by {
          forall k | 0 <= k < |opts| ensures !opts[k].Help? {
            if k > 0 {
              assert opts[k] == opts[1..][k - 1];
            }
          }
        }
      }
    }
  }

  /** The digest is the one of the last -sha* option; the loop keeps the
      earlier value when there is none. */
  lemma {:induction false} DigestIsLast(opts: seq<ReqOption>, lib: Lib, a: Args)
    requires NoHelp(opts) && !a.help
    ensures Options(opts, lib, a).md == if LastDigest(opts).Some? then LastDigest(opts) else a.md
    decreases |opts|
  {
    if opts != [] {
      var init := opts[..|opts| - 1];
      var o := opts[|opts| - 1];
      NoHelpInit(opts);
      DigestStep(init, o, lib, a);
      assert init + [o] == opts;
      DigestIsLast(init, lib, a);
    }
  }

  lemma NoHelpInit(opts: seq<ReqOption>)
    requires opts != [] && NoHelp(opts)
    ensures NoHelp(opts[..|opts| - 1]) && !opts[|opts| - 1].Help?
  {
    var init := opts[..|opts| - 1];
    forall k | 0 <= k < |init| ensures !init[k].Help? {
      assert init[k] == opts[k];
    }
  }

  /** One more option sets the digest exactly when it is a -sha* option. */
  lemma DigestStep(init: seq<ReqOption>, o: ReqOption, lib: Lib, a: Args)
    requires NoHelp(init) && !a.help
    ensures Options(init + [o], lib, a).md == if o.CertSha? then Some(o.digest) else Options(init, lib, a).md
  {
    OptionsHelp(init, lib, a);
    OptionsSnoc(init, o, lib, a);
  }

  /** -help returns success at once: nothing is created and nothing written. */
  lemma HelpReturns(opts: seq<ReqOption>, lib: Lib)
    requires !NoHelp(opts)
    ensures Request(opts, lib) == Report(WOLFCLU_SUCCESS, None, Unopened, [])
  {
    OptionsHelp(opts, lib, InitialArgs());
  }

  // ---------------------------------------------------------------------
  // The pipeline
  // ---------------------------------------------------------------------

  /** Where the output BIO goes. */
  datatype Target = Unopened | ToFile(path: string) | ToStdout

  /** The variables the stages after the option loop share: the result so
      far, whether x509 exists and its document, the key, the re-sign flag,
      and the output BIO (where it goes, what it received, the writes it
      still accepts). */
  datatype St = St(ret: int, made: bool, doc: Doc, pkey: Option<Key>, reSign: bool,
                   target: Target, written: seq<Chunk>, left: nat)

  /** What the command leaves behind: its result, the document it held, and
      what went to the output BIO. */
  datatype Report = Report(ret: int, doc: Option<Doc>, target: Target, written: seq<Chunk>)

  /** The digest requests are signed with: the last -sha* option, else SHA-256. */
  function DigestOf(a: Args): Digest {
    if a.md.Some? then a.md.value else Sha256
  }

  /** The request read from path as PEM or, for any other -inform, as DER. */
  function Decode(path: string, form: Form, lib: Lib): Option<Doc> {
    var m := if form == PemForm then lib.pemRequests else lib.derRequests;
    if path in m then Some(m[path]) else None
  }

  /** A config file as wolfSSL_NCONF_load leaves it: empty when it fails. */
  function Loaded(path: string, lib: Lib): Config.Conf {
    if path in lib.configs then lib.configs[path] else map[]
  }

  const SECONDS_PER_DAY: int := 86400

  /** Lines 644-664: a new document, or the request read from -in. */
  function Initial(a: Args, lib: Lib): St {
    var st := St(a.ret, false, FreshDoc(), None, false, Unopened, [], lib.room);
    if a.ret != WOLFCLU_SUCCESS then st
    else if a.reqIn.None? then
      if lib.docAllocOk then st.(made := true) else st.(ret := MEMORY_E)
    else
      var decoded := Decode(a.reqIn.value, a.inForm, lib);
      if decoded.Some? then st.(made := true, doc := decoded.value)
      else st.(ret := WOLFCLU_FATAL_ERROR)
  }

  /** Lines 666-686: -days N > 0 sets notBefore to now and notAfter N days
      later, and asks for re-signing even when the dates cannot be made. */
  function Dates(st: St, a: Args, lib: Lib): St {
    if st.ret != WOLFCLU_SUCCESS || a.days <= 0 then st
    else if !lib.timeOk then st.(ret := WOLFCLU_FATAL_ERROR, reSign := true)
    else st.(doc := st.doc.(notBefore := Some(lib.now),
                            notAfter := Some(lib.now + a.days * SECONDS_PER_DAY)),
             reSign := true)
  }

  /** Lines 688-699: the private key of -key, whose public half replaces the
      document's, also on a request read with -in. */
  function LoadKey(st: St, a: Args, lib: Lib): St {
    if st.ret != WOLFCLU_SUCCESS || a.keyIn.None? then st
    else if a.keyIn.value !in lib.privateKeys then st.(ret := USER_INPUT_ERROR)
    else
      var k := lib.privateKeys[a.keyIn.value];
      if lib.pubKeyOk then st.(pkey := Some(k), doc := st.doc.(pubKey := Some(k)))
      else st.(pkey := Some(k), ret := WOLFCLU_FATAL_ERROR)
  }

  /** Lines 701-706: with neither -key nor -in there is nothing to work on. */
  function NeedInput(st: St, a: Args): St {
    if st.ret == WOLFCLU_SUCCESS && a.keyIn.None? && a.reqIn.None? then st.(ret := USER_INPUT_ERROR)
    else st
  }

  /** Lines 708-712: the config file's "req" section; wolfCLU_readConfig
      always succeeds. */
  function ApplyConfig(st: St, a: Args, lib: Lib): St {
    if st.ret != WOLFCLU_SUCCESS || a.config.None? then st
    else st.(doc := Config.ConfigApplied(st.doc, Loaded(a.config.value, lib), "req", a.ext,
                                         lib.hashes, lib.ips),
             reSign := true)
  }

  /** Lines 714-723: -subj replaces the subject when it parses, and asks for
      re-signing either way. */
  function ApplySubject(st: St, a: Args, lib: Lib): St {
    if st.ret != WOLFCLU_SUCCESS || a.subj.None? then st
    else if a.subj.value in lib.names then
      st.(doc := st.doc.(subject := lib.names[a.subj.value]), reSign := true)
    else st.(reSign := true)
  }

  /** Lines 725-739: with none of -subj, -config and -in the subject is read
      from the user. */
  function DefaultSubject(st: St, a: Args, lib: Lib): St {
    if st.ret != WOLFCLU_SUCCESS || a.subj.Some? || a.config.Some? || a.reqIn.Some? then st
    else if !lib.nameAllocOk then st.(ret := MEMORY_E)
    else st.(doc := st.doc.(subject := lib.prompted))
  }

  /** Lines 741-748: version 1, whatever follows. */
  function SetV1(st: St): St {
    if st.ret != WOLFCLU_SUCCESS then st else st.(doc := st.doc.(version := X509_V1))
  }

  /** A document is signed when it was generated here or changed. */
  predicate Signs(st: St, a: Args) {
    a.reqIn.None? || st.reSign
  }

  /** Lines 750-755: signing needs a key. */
  function CheckKey(st: St, a: Args): St {
    if st.ret == WOLFCLU_SUCCESS && Signs(st, a) && st.pkey.None? then st.(ret := WOLFCLU_FATAL_ERROR)
    else st
  }

  /** Lines 757-775: the -out file, else stdout. */
  function OpenOutput(st: St, a: Args, lib: Lib): St {
    if st.ret != WOLFCLU_SUCCESS then st
    else if a.out.Some? then
      if a.out.value in lib.writable then st.(target := ToFile(a.out.value))
      else st.(ret := WOLFCLU_FATAL_ERROR)
    else st.(target := ToStdout)
  }

  /** Lines 777-804: a certificate is version 3 and signed with
      wolfSSL_X509_sign, a request with wolfSSL_X509_REQ_sign. */
  function Sign(st: St, a: Args, lib: Lib): St
    requires st.ret == WOLFCLU_SUCCESS && Signs(st, a) ==> st.pkey.Some?
  {
    if st.ret != WOLFCLU_SUCCESS || !Signs(st, a) then st
    else
      var d := if a.genX509 then st.doc.(version := X509_V3) else st.doc;
      if lib.signOk then st.(doc := d.(signedBy := Some(Signing(st.pkey.value, DigestOf(a), a.genX509))))
      else st.(doc := d, ret := WOLFCLU_FATAL_ERROR)
  }

  /** The key -verify checks with: -key's, else the document's own. */
  function VerifyKey(st: St): Option<Key> {
    if st.pkey.Some? then st.pkey else st.doc.pubKey
  }

  /** Lines 806-826: without a key to check with the result is fatal; the
      verdict itself is only logged. */
  function VerifyStage(st: St, a: Args): St {
    if st.ret != WOLFCLU_SUCCESS || !a.doVerify then st
    else if VerifyKey(st).None? then st.(ret := WOLFCLU_FATAL_ERROR)
    else st
  }

  /** Line 828-830: -text prints the request; what the print returns is
      dropped. */
  function Print(st: St, a: Args): St {
    if st.ret != WOLFCLU_SUCCESS || !a.doTextOut then st
    else
      var o := Perform(RequestPrint.ReqPlan(st.doc), st.left);
      st.(written := st.written + o.written, left := o.left)
  }

  /** The encoding -outform and -x509 select: DER only for -outform DER. */
  function EncodingOf(a: Args, d: Doc): Chunk {
    Encoding(if a.outForm == DerForm then DerForm else PemForm, a.genX509, d)
  }

  /** Lines 832-858: unless -noout, one encoding is written; a failed
      write is fatal. */
  function WriteOut(st: St, a: Args): St {
    if st.ret != WOLFCLU_SUCCESS || a.noOut then st
    else if st.left > 0 then st.(written := st.written + [EncodingOf(a, st.doc)], left := st.left - 1)
    else st.(ret := WOLFCLU_FATAL_ERROR)
  }

  /** The document changes before the signing decision, in source order. */
  function Prepared(a: Args, lib: Lib): St {
    Named(Keyed(Initial(a, lib), a, lib), a, lib)
  }

  /** Lines 666-706: the dates, the key, and the check for an input. */
  function Keyed(st: St, a: Args, lib: Lib): St {
    NeedInput(LoadKey(Dates(st, a, lib), a, lib), a)
  }

  /** Lines 708-739: the config file, -subj, and the default subject. */
  function Named(st: St, a: Args, lib: Lib): St {
    DefaultSubject(ApplySubject(ApplyConfig(st, a, lib), a, lib), a, lib)
  }

  /** The state the signing step starts from. */
  function Ready(a: Args, lib: Lib): St {
    OpenOutput(CheckKey(SetV1(Prepared(a, lib)), a), a, lib)
  }

  lemma ReadyHasKey(a: Args, lib: Lib)
    ensures var st := Ready(a, lib); st.ret == WOLFCLU_SUCCESS && Signs(st, a) ==> st.pkey.Some?
  {
  }

  /** The state after signing and verifying, before anything is written. */
  function Checked(a: Args, lib: Lib): St {
    ReadyHasKey(a, lib);
    VerifyStage(Sign(Ready(a, lib), a, lib), a)
  }

  function Pipeline(a: Args, lib: Lib): St {
    WriteOut(Print(Checked(a, lib), a), a)
  }

  /** wolfCLU_requestSetup from its options and library results. */
  function Request(opts: seq<ReqOption>, lib: Lib): Report {
    var a := Options(opts, lib, InitialArgs());
    if a.help then Report(WOLFCLU_SUCCESS, None, Unopened, [])
    else
      var st := Pipeline(a, lib);
      Report(st.ret, if st.made then Some(st.doc) else None, st.target, st.written)
  }

  // ---------------------------------------------------------------------
  // The command
  // ---------------------------------------------------------------------

  /** The method's variables stand for the pipeline state st. */
  predicate Mirrors(st: St, ret: int, x509: Cert?, pkey: Option<Key>, reSign: bool,
                    target: Target, bioOut: Sink?, room: nat)
    reads x509, bioOut
  {
    && st.ret == ret && st.pkey == pkey && st.reSign == reSign && st.target == target
    && (st.made <==> x509 != null) && (x509 != null ==> x509.doc == st.doc)
    && (bioOut == null ==> st.written == [] && st.left == room)
    && (bioOut != null ==> bioOut.chunks == st.written && bioOut.room == st.left)
  }

  /** Lines 644-664: x509 is created or decoded. */
  method StartDocument(a: Args, lib: Lib) returns (ret: int, x509: Cert?)
    ensures Mirrors(Initial(a, lib), ret, x509, None, false, Unopened, null, lib.room)
    ensures ret == WOLFCLU_SUCCESS ==> x509 != null
    ensures x509 != null ==> fresh(x509)
  {
    ret := a.ret;
    x509 := null;
    if ret == WOLFCLU_SUCCESS {
      if a.reqIn.None? {
        if lib.docAllocOk {
          x509 := new Cert(FreshDoc());
        } else {
          ret := MEMORY_E;
        }
      } else {
        var decoded := Decode(a.reqIn.value, a.inForm, lib);
        if decoded.Some? {
          x509 := new Cert(decoded.value);
        } else {
          ret := WOLFCLU_FATAL_ERROR;
        }
      }
    }
  }

  /** Lines 666-706: dates, key, and the check that there is an input. */
  method DatesAndKey(a: Args, lib: Lib, ret0: int, x509: Cert?, ghost st: St)
    returns (ret: int, pkey: Option<Key>, reSign: bool)
    requires Mirrors(st, ret0, x509, None, false, Unopened, null, lib.room)
    requires ret0 == WOLFCLU_SUCCESS ==> x509 != null
    modifies x509
    ensures ret == WOLFCLU_SUCCESS ==> ret0 == WOLFCLU_SUCCESS
    ensures Mirrors(Keyed(st, a, lib), ret, x509, pkey, reSign, Unopened, null, lib.room)
  {
    ret := ret0;
    pkey := None;
    reSign := false;
    if ret == WOLFCLU_SUCCESS && a.days > 0 {
      if !lib.timeOk {
        ret := WOLFCLU_FATAL_ERROR;
      } else {
        x509.doc := x509.doc.(notBefore := Some(lib.now),
                              notAfter := Some(lib.now + a.days * SECONDS_PER_DAY));
      }
      reSign := true;
    }
    if ret == WOLFCLU_SUCCESS && a.keyIn.Some? {
      if a.keyIn.value !in lib.privateKeys {
        ret := USER_INPUT_ERROR;
      } else {
        pkey := Some(lib.privateKeys[a.keyIn.value]);
        if lib.pubKeyOk {
          x509.doc := x509.doc.(pubKey := pkey);
        } else {
          ret := WOLFCLU_FATAL_ERROR;
        }
      }
    }
    if ret == WOLFCLU_SUCCESS && a.keyIn.None? && a.reqIn.None? {
      ret := USER_INPUT_ERROR;
    }
  }

  /** Lines 708-739: config file, -subj, or the subject read from the user. */
  method Names(a: Args, lib: Lib, ret0: int, x509: Cert?, pkey: Option<Key>, reSign0: bool, ghost st: St)
    returns (ret: int, reSign: bool)
    requires Mirrors(st, ret0, x509, pkey, reSign0, Unopened, null, lib.room)
    requires ret0 == WOLFCLU_SUCCESS ==> x509 != null
    modifies x509
    ensures ret == WOLFCLU_SUCCESS ==> ret0 == WOLFCLU_SUCCESS
    ensures Mirrors(Named(st, a, lib), ret, x509, pkey, reSign, Unopened, null, lib.room)
  {
    ret, reSign := ret0, reSign0;
    if ret == WOLFCLU_SUCCESS && a.config.Some? {
      ret := Config.ReadConfig(x509, Loaded(a.config.value, lib), "req", a.ext, lib.hashes, lib.ips);
      reSign := true;
    }
    if ret == WOLFCLU_SUCCESS && a.subj.Some? {
      if a.subj.value in lib.names {
        x509.doc := x509.doc.(subject := lib.names[a.subj.value]);
      }
      reSign := true;
    }
    if ret == WOLFCLU_SUCCESS && a.subj.None? && a.config.None? && a.reqIn.None? {
      if !lib.nameAllocOk {
        ret := MEMORY_E;
      } else {
        x509.doc := x509.doc.(subject := lib.prompted);
      }
    }
  }

  /** Lines 741-775: version 1, the key check, and the output BIO. */
  method Prepare(a: Args, lib: Lib, ret0: int, x509: Cert?, pkey: Option<Key>, reSign: bool, ghost st: St)
    returns (ret: int, bioOut: Sink?, target: Target)
    requires Mirrors(st, ret0, x509, pkey, reSign, Unopened, null, lib.room)
    requires ret0 == WOLFCLU_SUCCESS ==> x509 != null
    modifies x509
    ensures ret == WOLFCLU_SUCCESS ==> ret0 == WOLFCLU_SUCCESS
    ensures Mirrors(OpenOutput(CheckKey(SetV1(st), a), a, lib), ret, x509, pkey, reSign, target, bioOut, lib.room)
    ensures ret == WOLFCLU_SUCCESS ==> bioOut != null
    ensures bioOut != null ==> fresh(bioOut)
  {
    ret := ret0;
    bioOut := null;
    target := Unopened;
    if ret == WOLFCLU_SUCCESS {
      x509.doc := x509.doc.(version := X509_V1);
    }
    if ret == WOLFCLU_SUCCESS && (a.reqIn.None? || reSign) && pkey.None? {
      ret := WOLFCLU_FATAL_ERROR;
    }
    if ret == WOLFCLU_SUCCESS && a.out.Some? {
      if a.out.value in lib.writable {
        bioOut := new Sink(lib.room);
        target := ToFile(a.out.value);
      } else {
        ret := WOLFCLU_FATAL_ERROR;
      }
    }
    if ret == WOLFCLU_SUCCESS && bioOut == null {
      bioOut := new Sink(lib.room);   // stdout
      target := ToStdout;
    }
  }

  /** Lines 777-826: signing and -verify. */
  method SignAndVerify(a: Args, lib: Lib, md: Option<Digest>, ret0: int, x509: Cert?, pkey: Option<Key>,
                       reSign: bool, target: Target, bioOut: Sink?, ghost st: St) returns (ret: int)
    requires Mirrors(st, ret0, x509, pkey, reSign, target, bioOut, lib.room)
    requires st.ret == WOLFCLU_SUCCESS ==> md == Some(DigestOf(a)) && st.made
    requires st.ret == WOLFCLU_SUCCESS && Signs(st, a) ==> st.pkey.Some?
    modifies x509
    ensures Mirrors(VerifyStage(Sign(st, a, lib), a), ret, x509, pkey, reSign, target, bioOut, lib.room)
  {
    ret := ret0;
    if ret == WOLFCLU_SUCCESS && (a.reqIn.None? || reSign) {
      if a.genX509 {
        x509.doc := x509.doc.(version := X509_V3);
      }
      if lib.signOk {
        x509.doc := x509.doc.(signedBy := Some(Signing(pkey.value, md.value, a.genX509)));
        ret := WOLFCLU_SUCCESS;
      } else {
        ret := WOLFCLU_FATAL_ERROR;
      }
    }
    if ret == WOLFCLU_SUCCESS && a.doVerify {
      var pubKey := pkey;
      if pubKey.None? {
        pubKey := x509.doc.pubKey;
      }
      if pubKey.None? {
        ret := WOLFCLU_FATAL_ERROR;
      } else if lib.verifyOk {
        // "verify OK" is logged
      } else {
        // "verify failed" is logged
      }
    }
  }

  /** Lines 828-858: -text, then the encoding unless -noout. */
  method WriteAll(a: Args, lib: Lib, ret0: int, x509: Cert?, pkey: Option<Key>, reSign: bool,
                  target: Target, bioOut: Sink?, ghost st: St) returns (ret: int)
    requires Mirrors(st, ret0, x509, pkey, reSign, target, bioOut, lib.room)
    requires ret0 == WOLFCLU_SUCCESS ==> bioOut != null && x509 != null
    modifies bioOut
    ensures Mirrors(WriteOut(Print(st, a), a), ret, x509, pkey, reSign, target, bioOut, lib.room)
  {
    ret := ret0;
    if ret == WOLFCLU_SUCCESS && a.doTextOut {
      var _ := RequestPrint.ReqPrint(bioOut, x509.doc);
    }
    if ret == WOLFCLU_SUCCESS && !a.noOut {
      var ok := bioOut.Write(EncodingOf(a, x509.doc));
      if !ok {
        ret := WOLFCLU_FATAL_ERROR;
      } else {
        ret := WOLFCLU_SUCCESS;
      }
    }
  }

  /** wolfCLU_requestSetup. */
  method RequestSetup(opts: seq<ReqOption>, lib: Lib) returns (r: Report)
    ensures r == Request(opts, lib)
  {
    var a := ReadOptions(opts, lib);
    if a.help {
      return Report(WOLFCLU_SUCCESS, None, Unopened, []);   // wolfCLU_certgenHelp()
    }
    var md := a.md;
    if a.ret == WOLFCLU_SUCCESS && md.None? {
      md := Some(Sha256);
    }
    var ret, x509 := StartDocument(a, lib);
    ghost var st := Initial(a, lib);
    var pkey, reSign;
    ret, pkey, reSign := DatesAndKey(a, lib, ret, x509, st);
    st := Keyed(st, a, lib);
    ret, reSign := Names(a, lib, ret, x509, pkey, reSign, st);
    st := Named(st, a, lib);
    assert st == Prepared(a, lib);
    var bioOut, target;
    ret, bioOut, target := Prepare(a, lib, ret, x509, pkey, reSign, st);
    st := OpenOutput(CheckKey(SetV1(st), a), a, lib);
    assert st == Ready(a, lib);
    ReadyHasKey(a, lib);
    StartedOnSuccess(a, lib);
    ret := SignAndVerify(a, lib, md, ret, x509, pkey, reSign, target, bioOut, st);
    st := VerifyStage(Sign(st, a, lib), a);
    assert st == Checked(a, lib);
    ret := WriteAll(a, lib, ret, x509, pkey, reSign, target, bioOut, st);
    st := WriteOut(Print(st, a), a);
    r := Report(ret, if x509 == null then None else Some(x509.doc), target,
                if bioOut == null then [] else bioOut.chunks);
  }

  /** A state that still succeeds came from a successful option loop and has
      its document. */
  lemma StartedOnSuccess(a: Args, lib: Lib)
    ensures Ready(a, lib).ret == WOLFCLU_SUCCESS ==> a.ret == WOLFCLU_SUCCESS && Ready(a, lib).made
  {
  }
}
