/** What wolfCLU_requestSetup promises, stated over the pipeline of
    Request: which inputs fail and how, when the document is signed, the
    order in which its fields are overridden, the version it ends with,
    that -verify only reports, and what reaches the output BIO. */
module RequestRules {
  import opened Common
  import opened Document
  import opened Output
  import Config
  import RequestPrint
  import opened Request

  // ---------------------------------------------------------------------
  // The stages before the signing decision
  // ---------------------------------------------------------------------

  /** The output BIO and the document's existence before a stage ... */
  predicate SameOutput(st: St, st': St) {
    st'.written == st.written && st'.left == st.left && st'.target == st.target && st'.made == st.made
  }

  /** ... are those after it. */
  lemma KeyedQuiet(st: St, a: Args, lib: Lib)
    ensures SameOutput(st, Keyed(st, a, lib))
  {
  }

  lemma NamedQuiet(st: St, a: Args, lib: Lib)
    ensures SameOutput(st, Named(st, a, lib))
  {
  }

  /** What a successful run of lines 666-706 needed and did: the dates of
      -days N > 0, then the key's public half, and a re-sign request for
      the dates. */
  lemma KeyedEffect(st: St, a: Args, lib: Lib)
    requires Keyed(st, a, lib).ret == WOLFCLU_SUCCESS
    ensures st.ret == WOLFCLU_SUCCESS && (a.keyIn.Some? || a.reqIn.Some?)
    ensures a.days > 0 ==> lib.timeOk
    ensures a.keyIn.Some? ==> a.keyIn.value in lib.privateKeys && lib.pubKeyOk
    ensures var s := Keyed(st, a, lib);
      && s.reSign == (st.reSign || a.days > 0)
      && s.pkey == (if a.keyIn.Some? then Some(lib.privateKeys[a.keyIn.value]) else st.pkey)
      && s.doc == (var d1 := if a.days > 0 then st.doc.(notBefore := Some(lib.now),
                                                          notAfter := Some(lib.now + a.days * SECONDS_PER_DAY))
                             else st.doc;
                   if a.keyIn.Some? then d1.(pubKey := Some(lib.privateKeys[a.keyIn.value])) else d1)
  {
    var s2 := Dates(st, a, lib);
    var s3 := LoadKey(s2, a, lib);
    assert s3.ret == WOLFCLU_SUCCESS;
    assert s2.ret == WOLFCLU_SUCCESS;
  }

  /** The subject the config file's "req" section gives a document whose
      subject was s. */
  function ConfigSubject(conf: Config.Conf, s: seq<NameEntry>): seq<NameEntry> {
    match Config.Get(conf, "req", "distinguished_name")
    case None => s
    case Some(dn) => Config.DisName(Config.SectionOf(conf, dn))
  }

  /** The config stage changes only the extensions, alternative names and
      subject, and asks for re-signing. */
  lemma ConfigEffect(st: St, a: Args, lib: Lib)
    requires st.ret == WOLFCLU_SUCCESS
    ensures var s := ApplyConfig(st, a, lib);
      && s.ret == WOLFCLU_SUCCESS && s.reSign == (st.reSign || a.config.Some?) && s.pkey == st.pkey
      && s.doc == st.doc.(extensions := s.doc.extensions, altNames := s.doc.altNames, subject := s.doc.subject)
      && (a.config.None? ==> s.doc == st.doc)
      && (a.config.Some? ==> s.doc.subject == ConfigSubject(Loaded(a.config.value, lib), st.doc.subject))
  {
    if a.config.Some? {
      Config.ConfigChanges(st.doc, Loaded(a.config.value, lib), "req", a.ext, lib.hashes, lib.ips);
    }
  }

  /** What a successful run of lines 708-739 did: the config file, then
      -subj when it parses, then the subject read from the user when none
      of -subj, -config and -in is given; -config and -subj ask for
      re-signing, a -subj that does not parse too. */
  lemma NamedEffect(st: St, a: Args, lib: Lib)
    requires Named(st, a, lib).ret == WOLFCLU_SUCCESS
    ensures st.ret == WOLFCLU_SUCCESS
    ensures a.subj.None? && a.config.None? && a.reqIn.None? ==> lib.nameAllocOk
    ensures var s := Named(st, a, lib);
      && s.reSign == (st.reSign || a.config.Some? || a.subj.Some?) && s.pkey == st.pkey
      && s.doc == st.doc.(extensions := s.doc.extensions, altNames := s.doc.altNames, subject := s.doc.subject)
      && (a.config.None? ==> s.doc.extensions == st.doc.extensions && s.doc.altNames == st.doc.altNames)
      && s.doc.subject == (if a.subj.Some? && a.subj.value in lib.names then lib.names[a.subj.value]
                           else if a.config.Some? then ConfigSubject(Loaded(a.config.value, lib), st.doc.subject)
                           else if a.subj.None? && a.reqIn.None? then lib.prompted
                           else st.doc.subject)
  {
    var s5 := ApplyConfig(st, a, lib);
    var s6 := ApplySubject(s5, a, lib);
    assert s6.ret == WOLFCLU_SUCCESS;
    assert st.ret == WOLFCLU_SUCCESS;
    ConfigEffect(st, a, lib);
  }

  // ---------------------------------------------------------------------
  // Failures are final
  // ---------------------------------------------------------------------

  /** The stages before the signing decision touch no output. */
  lemma PreparedQuiet(a: Args, lib: Lib)
    ensures Prepared(a, lib).written == [] && Prepared(a, lib).left == lib.room
    ensures Prepared(a, lib).target == Unopened
    ensures Prepared(a, lib).made == Initial(a, lib).made
  {
    var s1 := Initial(a, lib);
    KeyedQuiet(s1, a, lib);
    NamedQuiet(Keyed(s1, a, lib), a, lib);
  }

  /** Once a stage has failed, every later stage passes the state on. */
  lemma AfterPreparedFailure(a: Args, lib: Lib)
    requires Prepared(a, lib).ret != WOLFCLU_SUCCESS
    ensures Pipeline(a, lib) == Prepared(a, lib)
  {
    ReadyHasKey(a, lib);
    var st := Prepared(a, lib);
    assert Ready(a, lib) == st;
    assert Checked(a, lib) == st;
  }

  lemma AfterReadyFailure(a: Args, lib: Lib)
    requires Ready(a, lib).ret != WOLFCLU_SUCCESS
    ensures Pipeline(a, lib) == Ready(a, lib)
  {
    ReadyHasKey(a, lib);
    assert Checked(a, lib) == Ready(a, lib);
  }

  // ---------------------------------------------------------------------
  // The initial document
  // ---------------------------------------------------------------------

  /** Without -in a new document is made; with -in the file is decoded as
      PEM for -inform PEM and as DER otherwise, with no second attempt. */
  lemma InitialDocument(a: Args, lib: Lib)
    ensures Initial(a, lib).made <==>
      a.ret == WOLFCLU_SUCCESS &&
      (if a.reqIn.None? then lib.docAllocOk
       else a.reqIn.value in (if a.inForm == PemForm then lib.pemRequests else lib.derRequests))
    ensures Initial(a, lib).made ==>
      Initial(a, lib).doc == (if a.reqIn.None? then FreshDoc()
                              else if a.inForm == PemForm then lib.pemRequests[a.reqIn.value]
                              else lib.derRequests[a.reqIn.value])
    ensures Initial(a, lib).ret == WOLFCLU_SUCCESS <==> Initial(a, lib).made
  {
  }

  /** A request that does not decode is fatal: no document, no output. */
  lemma DecodeFailure(a: Args, lib: Lib)
    requires a.ret == WOLFCLU_SUCCESS && a.reqIn.Some?
    requires Decode(a.reqIn.value, a.inForm, lib).None?
    ensures var st := Pipeline(a, lib);
      st.ret == WOLFCLU_FATAL_ERROR && !st.made && st.written == [] && st.target == Unopened
  {
    var s1 := Initial(a, lib);
    assert Keyed(s1, a, lib) == s1;
    assert Prepared(a, lib) == s1;
    AfterPreparedFailure(a, lib);
  }

  /** With neither -key nor -in the command fails before any output: with
      USER_INPUT_ERROR unless an earlier step already failed. */
  lemma NoKeyNoRequest(a: Args, lib: Lib)
    requires a.keyIn.None? && a.reqIn.None?
    ensures var st := Pipeline(a, lib);
      && st.ret == (if a.ret != WOLFCLU_SUCCESS then a.ret
                    else if !lib.docAllocOk then MEMORY_E
                    else if a.days > 0 && !lib.timeOk then WOLFCLU_FATAL_ERROR
                    else USER_INPUT_ERROR)
      && st.written == [] && st.target == Unopened
  {
    var s1 := Initial(a, lib);
    var s4 := Keyed(s1, a, lib);
    assert s4.ret == (if a.ret != WOLFCLU_SUCCESS then a.ret
                      else if !lib.docAllocOk then MEMORY_E
                      else if a.days > 0 && !lib.timeOk then WOLFCLU_FATAL_ERROR
                      else USER_INPUT_ERROR);
    assert Prepared(a, lib) == s4;
    AfterPreparedFailure(a, lib);
    PreparedQuiet(a, lib);
  }

  // ---------------------------------------------------------------------
  // Re-signing and the order of the overrides
  // ---------------------------------------------------------------------

  /** -days N > 0, -config and -subj ask for re-signing; nothing else does.
      The key is -key's, and there is none without -key. */
  lemma ReSignRule(a: Args, lib: Lib)
    requires Prepared(a, lib).ret == WOLFCLU_SUCCESS
    ensures Prepared(a, lib).reSign <==> a.days > 0 || a.config.Some? || a.subj.Some?
    ensures Prepared(a, lib).pkey == if a.keyIn.Some? then Some(lib.privateKeys[a.keyIn.value]) else None
  {
    var s1 := Initial(a, lib);
    NamedEffect(Keyed(s1, a, lib), a, lib);
    KeyedEffect(s1, a, lib);
  }

  /** The overrides in source order: dates, then the key's public half
      (also on a request read with -in), then the config file, then -subj;
      an unparsable -subj keeps the subject, and the subject is read from
      the user only with none of -subj, -config and -in. Nothing else in
      the document changes. */
  lemma OverrideOrder(a: Args, lib: Lib)
    requires Prepared(a, lib).ret == WOLFCLU_SUCCESS
    ensures var d0, d := Initial(a, lib).doc, Prepared(a, lib).doc;
      && d.notBefore == (if a.days > 0 then Some(lib.now) else d0.notBefore)
      && d.notAfter == (if a.days > 0 then Some(lib.now + a.days * SECONDS_PER_DAY) else d0.notAfter)
      && d.pubKey == (if a.keyIn.Some? then Some(lib.privateKeys[a.keyIn.value]) else d0.pubKey)
      && d.subject == (if a.subj.Some? && a.subj.value in lib.names then lib.names[a.subj.value]
                       else if a.config.Some? then ConfigSubject(Loaded(a.config.value, lib), d0.subject)
                       else if a.subj.None? && a.reqIn.None? then lib.prompted
                       else d0.subject)
      && (a.config.None? ==> d.extensions == d0.extensions && d.altNames == d0.altNames)
      && d == d0.(notBefore := d.notBefore, notAfter := d.notAfter, pubKey := d.pubKey,
                  subject := d.subject, extensions := d.extensions, altNames := d.altNames)
  {
    var s1 := Initial(a, lib);
    NamedEffect(Keyed(s1, a, lib), a, lib);
    KeyedEffect(s1, a, lib);
  }

  // ---------------------------------------------------------------------
  // Signing and the version
  // ---------------------------------------------------------------------

  /** Whether the document is signed, in terms of the options: it was
      generated here, or -days N > 0, -config or -subj changed it. */
  predicate SignsFor(a: Args) {
    a.reqIn.None? || a.days > 0 || a.config.Some? || a.subj.Some?
  }

  /** Lines 741-775 succeed exactly when there is a key for signing and the
      -out file opens; they set version 1 and choose the output BIO. */
  lemma ReadyStep(st: St, a: Args, lib: Lib)
    ensures var r := OpenOutput(CheckKey(SetV1(st), a), a, lib);
      && (r.ret == WOLFCLU_SUCCESS <==>
            st.ret == WOLFCLU_SUCCESS && (Signs(st, a) ==> st.pkey.Some?)
            && (a.out.Some? ==> a.out.value in lib.writable))
      && (r.ret == WOLFCLU_SUCCESS ==>
            r == st.(doc := st.doc.(version := X509_V1),
                     target := if a.out.Some? then ToFile(a.out.value) else ToStdout))
      && (r.ret != WOLFCLU_SUCCESS ==> r.target == st.target && r.written == st.written)
  {
  }

  /** The state at the signing step is good exactly when the earlier stages
      succeeded, a key was given when the document is signed, and the -out
      file opens. */
  lemma ReadyRule(a: Args, lib: Lib)
    ensures Ready(a, lib).ret == WOLFCLU_SUCCESS <==>
      && Prepared(a, lib).ret == WOLFCLU_SUCCESS
      && (SignsFor(a) ==> a.keyIn.Some?)
      && (a.out.Some? ==> a.out.value in lib.writable)
    ensures Ready(a, lib).ret == WOLFCLU_SUCCESS ==>
      && Signs(Ready(a, lib), a) == SignsFor(a)
      && Ready(a, lib) == Prepared(a, lib).(doc := Prepared(a, lib).doc.(version := X509_V1),
                                            target := if a.out.Some? then ToFile(a.out.value) else ToStdout)
  {
    var p := Prepared(a, lib);
    ReadyStep(p, a, lib);
    if p.ret == WOLFCLU_SUCCESS {
      ReSignRule(a, lib);
    }
  }

  /** Signing with no key is fatal, before any output. */
  lemma MissingKeyFatal(a: Args, lib: Lib)
    requires Prepared(a, lib).ret == WOLFCLU_SUCCESS && SignsFor(a) && a.keyIn.None?
    ensures var st := Pipeline(a, lib);
      st.ret == WOLFCLU_FATAL_ERROR && st.made && st.written == [] && st.target == Unopened
  {
    PreparedQuiet(a, lib);
    InitialDocument(a, lib);
    ReSignRule(a, lib);
    ReadyStep(Prepared(a, lib), a, lib);
    AfterReadyFailure(a, lib);
  }

  /** Lines 777-826 from a good state: the document is signed when it should
      be, under version 3 for -x509, and -verify fails only without a key. */
  lemma CheckedStep(st: St, a: Args, lib: Lib)
    requires st.ret == WOLFCLU_SUCCESS && (Signs(st, a) ==> st.pkey.Some?)
    ensures var c := VerifyStage(Sign(st, a, lib), a);
      && (c.ret == WOLFCLU_SUCCESS <==>
            (Signs(st, a) ==> lib.signOk) && (a.doVerify ==> st.pkey.Some? || st.doc.pubKey.Some?))
      && (c.ret == WOLFCLU_SUCCESS ==>
            c == st.(doc := st.doc.(version := if Signs(st, a) && a.genX509 then X509_V3 else st.doc.version,
                                    signedBy := if Signs(st, a) then Some(Signing(st.pkey.value, DigestOf(a), a.genX509))
                                                else st.doc.signedBy)))
      && (c.ret != WOLFCLU_SUCCESS ==> c.target == st.target && c.written == st.written && c.made == st.made)
  {
  }

  /** A good state after signing never came from a failed one. */
  lemma CheckedNeedsReady(a: Args, lib: Lib)
    ensures Checked(a, lib).ret == WOLFCLU_SUCCESS ==> Ready(a, lib).ret == WOLFCLU_SUCCESS
  {
    ReadyHasKey(a, lib);
  }

  /** After signing: a document that is signed has -key's key and the
      digest of the last -sha* option (SHA-256 by default) under version 3
      for -x509 and version 1 otherwise; a loaded request that is not
      re-signed keeps its signature and stays version 1 even with -x509.
      Nothing else changes. */
  lemma SigningRule(a: Args, lib: Lib)
    requires Checked(a, lib).ret == WOLFCLU_SUCCESS
    ensures var p, c := Prepared(a, lib), Checked(a, lib);
      && (SignsFor(a) ==>
            && a.keyIn.Some? && lib.signOk
            && c.doc.signedBy == Some(Signing(lib.privateKeys[a.keyIn.value], DigestOf(a), a.genX509)))
      && (!SignsFor(a) ==> c.doc.signedBy == p.doc.signedBy)
      && c.doc.version == (if SignsFor(a) && a.genX509 then X509_V3 else X509_V1)
      && c.doc == p.doc.(version := c.doc.version, signedBy := c.doc.signedBy)
  {
    CheckedNeedsReady(a, lib);
    ReadyRule(a, lib);
    ReSignRule(a, lib);
    CheckedStep(Ready(a, lib), a, lib);
  }

  /** Nothing has been written before -text, the document exists, and the
      output BIO is the -out file or stdout. */
  lemma CheckedQuiet(a: Args, lib: Lib)
    requires Checked(a, lib).ret == WOLFCLU_SUCCESS
    ensures var c := Checked(a, lib);
      && c.made && c.written == [] && c.left == lib.room
      && c.target == (if a.out.Some? then ToFile(a.out.value) else ToStdout)
  {
    CheckedNeedsReady(a, lib);
    ReadyRule(a, lib);
    PreparedQuiet(a, lib);
    InitialDocument(a, lib);
    CheckedStep(Ready(a, lib), a, lib);
  }

  // ---------------------------------------------------------------------
  // -verify
  // ---------------------------------------------------------------------

  /** -verify checks with -key's key, else the document's own public key:
      with neither the result is fatal, and otherwise it is untouched. */
  lemma VerifyRule(a: Args, lib: Lib)
    requires Ready(a, lib).ret == WOLFCLU_SUCCESS && (SignsFor(a) ==> lib.signOk) && a.doVerify
    ensures Checked(a, lib).ret == WOLFCLU_SUCCESS <==> a.keyIn.Some? || Prepared(a, lib).doc.pubKey.Some?
  {
    ReadyRule(a, lib);
    ReSignRule(a, lib);
    CheckedStep(Ready(a, lib), a, lib);
  }

  /** -verify, when there is a key to check with, changes nothing the
      command does: its verdict is only logged. */
  lemma VerifyOnlyLogged(a: Args, lib: Lib)
    requires a.keyIn.Some? || Prepared(a, lib).doc.pubKey.Some?
    ensures Pipeline(a, lib) == Pipeline(a.(doVerify := false), lib)
  {
    var a' := a.(doVerify := false);
    var s1 := Initial(a, lib);
    assert Initial(a', lib) == s1;
    KeyedIgnoresVerify(s1, a, lib);
    var s4 := Keyed(s1, a, lib);
    NamedIgnoresVerify(s4, a, lib);
    var p := Prepared(a, lib);
    assert Prepared(a', lib) == p;
    ReadyIgnoresVerify(p, a, lib);
    var r := Ready(a, lib);
    assert Ready(a', lib) == r;
    ReadyHasKey(a, lib);
    SignIgnoresVerify(r, a, lib);
    if r.ret == WOLFCLU_SUCCESS && a.doVerify {
      ReadyRule(a, lib);
      ReSignRule(a, lib);
      assert VerifyKey(Sign(r, a, lib)).Some?;
    }
    var c := Checked(a, lib);
    assert Checked(a', lib) == c;
    OutputIgnoresVerify(c, a);
  }

  /** Only the -verify stage reads -verify. */
  lemma KeyedIgnoresVerify(st: St, a: Args, lib: Lib)
    ensures Keyed(st, a.(doVerify := false), lib) == Keyed(st, a, lib)
  {
    var a' := a.(doVerify := false);
    assert a'.days == a.days && a'.keyIn == a.keyIn && a'.reqIn == a.reqIn;
    assert Dates(st, a', lib) == Dates(st, a, lib);
  }

  lemma NamedIgnoresVerify(st: St, a: Args, lib: Lib)
    ensures Named(st, a.(doVerify := false), lib) == Named(st, a, lib)
  {
    var a' := a.(doVerify := false);
    assert ApplyConfig(st, a', lib) == ApplyConfig(st, a, lib);
  }

  lemma ReadyIgnoresVerify(st: St, a: Args, lib: Lib)
    ensures var a' := a.(doVerify := false);
      OpenOutput(CheckKey(SetV1(st), a'), a', lib) == OpenOutput(CheckKey(SetV1(st), a), a, lib)
  {
  }

  lemma SignIgnoresVerify(st: St, a: Args, lib: Lib)
    requires st.ret == WOLFCLU_SUCCESS && Signs(st, a) ==> st.pkey.Some?
    ensures Sign(st, a.(doVerify := false), lib) == Sign(st, a, lib)
  {
  }

  lemma OutputIgnoresVerify(st: St, a: Args)
    ensures var a' := a.(doVerify := false);
      VerifyStage(st, a') == st && WriteOut(Print(st, a'), a') == WriteOut(Print(st, a), a)
  {
  }

  // ---------------------------------------------------------------------
  // Output
  // ---------------------------------------------------------------------

  /** Lines 828-858 from a good state: -text prints the request, with its
      result dropped, then one encoding is written unless -noout; only a
      failed encoding write is fatal. */
  lemma OutputStep(st: St, a: Args)
    requires st.ret == WOLFCLU_SUCCESS
    ensures var o := Perform(RequestPrint.ReqPlan(st.doc), st.left);
      var text := if a.doTextOut then o.written else [];
      var left := if a.doTextOut then o.left else st.left;
      var w := WriteOut(Print(st, a), a);
      && w.written == st.written + text + (if !a.noOut && left > 0 then [EncodingOf(a, st.doc)] else [])
      && w.ret == (if a.noOut || left > 0 then WOLFCLU_SUCCESS else WOLFCLU_FATAL_ERROR)
      && w.doc == st.doc && w.made == st.made && w.target == st.target
  {
  }

  lemma EmptyFront<T>(x: seq<T>, y: seq<T>)
    ensures [] + x + y == x + y
  {
  }

  /** What reaches the output BIO of a command that got past signing: the
      printed request for -text, whatever became of its writes, then
      unless -noout the one encoding that -outform (DER, else PEM) and
      -x509 (certificate, else request) select. The result is success
      exactly when -noout is given or that encoding could be written. */
  lemma OutputRule(a: Args, lib: Lib)
    requires Checked(a, lib).ret == WOLFCLU_SUCCESS
    ensures var c, st := Checked(a, lib), Pipeline(a, lib);
      var o := Perform(RequestPrint.ReqPlan(c.doc), lib.room);
      var left := if a.doTextOut then o.left else lib.room;
      && st.written == (if a.doTextOut then o.written else [])
                       + (if !a.noOut && left > 0 then [Encoding(if a.outForm == DerForm then DerForm else PemForm,
                                                                  a.genX509, c.doc)]
                          else [])
      && st.ret == (if a.noOut || left > 0 then WOLFCLU_SUCCESS else WOLFCLU_FATAL_ERROR)
      && st.doc == c.doc && st.made
      && st.target == (if a.out.Some? then ToFile(a.out.value) else ToStdout)
  {
    var c := Checked(a, lib);
    CheckedQuiet(a, lib);
    OutputStep(c, a);
    var o := Perform(RequestPrint.ReqPlan(c.doc), lib.room);
    var left := if a.doTextOut then o.left else lib.room;
    EmptyFront(if a.doTextOut then o.written else [],
               if !a.noOut && left > 0 then [EncodingOf(a, c.doc)] else []);
  }

  // ---------------------------------------------------------------------
  // The command
  // ---------------------------------------------------------------------

  /** Requests are signed with the digest of the last -sha* option, and with
      SHA-256 when there is none. */
  lemma RequestDigest(opts: seq<ReqOption>, lib: Lib)
    requires NoHelp(opts)
    ensures DigestOf(Options(opts, lib, InitialArgs())) ==
      if LastDigest(opts).Some? then LastDigest(opts).value else Sha256
  {
    DigestIsLast(opts, lib, InitialArgs());
  }
}
