/** wolfCLU_certSetup, the `x509` command: it reads the options, opens and
    decodes the certificate named by -in, and then writes the parts asked
    for to the output BIO in a fixed order (subject, issuer, serial, dates,
    email, fingerprint, purpose, hash, text, public key, certificate), each
    part only while nothing before it has failed. Every wolfSSL call is an
    input fixed in advance (a Lib), and the output BIO is a Sink. */
module CertSetup {
  import opened Common
  import opened Text
  import opened Document
  import opened Output
  import opened CommandLine

  /** Every option whose argv[ret+1] the setup reads (in, out, inform, outform) has its value. */
  predicate Valued(line: ArgLine) {
    HasValue(line, "in") && HasValue(line, "out") && HasValue(line, "inform") && HasValue(line, "outform")
  }

  /** What the library calls of the command return. */
  datatype Lib = Lib(
    inform: Form,                 // wolfCLU_checkInform of the -inform value
    outform: Form,                // wolfCLU_checkOutform of the -outform value
    readable: set<string>,        // wolfSSL_BIO_new_file(path, "rb") opens and access() finds the file
    writable: set<string>,        // wolfSSL_BIO_new_file(path, "wb") opens
    pemCerts: map<string, Doc>,   // wolfSSL_PEM_read_bio_X509 decodes the file
    derCerts: map<string, Doc>,   // wolfSSL_d2i_X509_bio decodes the file
    serialOk: bool,               // wolfSSL_X509_get_serial_number fits the serial into its buffer
    digest: Option<seq<byte>>,    // SHA-1 of wolfSSL_X509_get_der; None when either call fails
    nameHash: nat,                // wolfSSL_X509_NAME_hash of the subject
    room: nat)                    // writes the output BIO accepts

  // ---------------------------------------------------------------------
  // Options and input (lines 62-209)
  // ---------------------------------------------------------------------

  /** The print flags. The section flags are set when wolfCLU_checkForArg
      returns anything but 0; -text, -pubkey and -noout need a positive
      answer. */
  datatype Selection = Selection(
    subject: bool, issuer: bool, serial: bool, dates: bool, email: bool,
    fingerprint: bool, purpose: bool, hash: bool,
    text: bool, pubkey: bool, noout: bool)

  function Select(line: ArgLine): Selection {
    Selection(
      Search(line, "subject") != 0, Search(line, "issuer") != 0,
      Search(line, "serial") != 0, Search(line, "dates") != 0,
      Search(line, "email") != 0, Search(line, "fingerprint") != 0,
      Search(line, "purpose") != 0, Search(line, "hash") != 0,
      Present(line, "text"), Present(line, "pubkey"), Present(line, "noout"))
  }

  /** Where the output BIO writes. */
  datatype Target = Unopened | ToFile(path: string) | ToStdout

  /** Lines 171-183: PEM or DER as -inform says, with no fallback from one to
      the other; any other form leaves the certificate NULL. */
  function Parse(path: string, form: Form, lib: Lib): Option<Doc> {
    if form == PemForm then (if path in lib.pemCerts then Some(lib.pemCerts[path]) else None)
    else if form == DerForm then (if path in lib.derCerts then Some(lib.derCerts[path]) else None)
    else None
  }

  /** What the option checks and the input leave: the return code, the
      decoded certificate, the output target and the output form. */
  datatype Setup = Setup(ret: int, doc: Option<Doc>, target: Target, outForm: Form)

  /** Lines 86-209, after -h: the forms, -in, -out, the parse, and the
      output BIO. An -out file that does not open falls back to stdout. */
  function Open(line: ArgLine, lib: Lib): (s: Setup)
    requires Valued(line)
    ensures s.ret == WOLFCLU_SUCCESS ==> s.doc.Some? && s.target != Unopened
    ensures s.outForm == if Present(line, "outform") then lib.outform else PemForm
  {
    var inForm := if Present(line, "inform") then lib.inform else PemForm;
    var outForm := if Present(line, "outform") then lib.outform else PemForm;
    if !Present(line, "in") then Setup(WOLFCLU_FATAL_ERROR, None, Unopened, outForm)
    else if ValueOf(line, "in") !in lib.readable then Setup(INPUT_FILE_ERROR, None, Unopened, outForm)
    else if Search(line, "out") < 0 then Setup(WOLFCLU_FATAL_ERROR, None, Unopened, outForm)
    else
      var doc := Parse(ValueOf(line, "in"), inForm, lib);
      if doc.None? then Setup(WOLFCLU_FATAL_ERROR, None, Unopened, outForm)
      else if Present(line, "out") && ValueOf(line, "out") in lib.writable then
        Setup(WOLFCLU_SUCCESS, doc, ToFile(ValueOf(line, "out")), outForm)
      else Setup(WOLFCLU_SUCCESS, doc, ToStdout, outForm)
  }

  // ---------------------------------------------------------------------
  // The sections as plans of writes (lines 212-490)
  // ---------------------------------------------------------------------

  function On(b: bool, p: seq<Step>): seq<Step> {
    if b then p else []
  }

  /** A name on one line; both write results are ignored. */
  function NamePlan(name: seq<NameEntry>): seq<Step> {
    [Put(Render(NameLine(name)), false), Put(Text("\n"), false)]
  }

  /** One checked write of two upper-case hex digits per byte. */
  function HexPlan(bs: seq<byte>): seq<Step> {
    seq(|bs|, j requires 0 <= j < |bs| => Put(Text(Hex2(bs[j], true)), true))
  }

  function SerialLine(serial: seq<byte>): seq<Step> {
    [Put(Text("serial="), true)] + HexPlan(serial) + [Put(Text("\n"), true)]
  }

  /** Nothing is printed when the serial number cannot be read. */
  function SerialPlan(doc: Doc, lib: Lib): seq<Step> {
    if lib.serialOk then SerialLine(doc.serial) else []
  }

  /** wolfSSL_ASN1_TIME_print: fails without writing when there is no time. */
  function TimePlan(t: Option<int>): seq<Step> {
    if t.Some? then [Put(Render(TimeText(t.value)), true)] else [Abort]
  }

  function DatesPlan(doc: Doc): seq<Step> {
    [Put(Text("notBefore="), true)] + TimePlan(doc.notBefore)
    + [Put(Text("\n"), true), Put(Text("notAfter="), true)] + TimePlan(doc.notAfter)
    + [Put(Text("\n"), true)]
  }

  /** wolfSSL_X509_NAME_get_text_by_NID(name, NID_emailAddress, ...): the
      first e-mail entry of the name, or None when it has none. */
  function EmailOf(name: seq<NameEntry>): (e: Option<string>)
    ensures e.Some? <==> exists i :: 0 <= i < |name| && name[i].field == EmailAddress
  {
    if name == [] then None
    else if name[0].field == EmailAddress then Some(name[0].value)
    else
      var e := EmailOf(name[1..]);
      assert forall i :: 1 <= i < |name| ==> name[i] == name[1..][i - 1];
      e
  }

  /** No address, or an empty one (the copy returns 0 characters), is fatal. */
  function EmailPlan(name: seq<NameEntry>): seq<Step> {
    var e := EmailOf(name);
    if e.None? || e.value == "" then [Abort]
    else [Put(Text(e.value), true), Put(Text("\n"), true)]
  }

  function FingerprintLine(digest: seq<byte>): seq<Step> {
    [Put(Text("SHA1 of cert. DER : "), true)] + HexPlan(digest) + [Put(Text("\n"), true)]
  }

  /** Nothing is printed when there is no DER or the hash fails. */
  function FingerprintPlan(lib: Lib): seq<Step> {
    if lib.digest.Some? then FingerprintLine(lib.digest.value) else []
  }

  /** The unsigned 32-bit flag word read as a C int. */
  function Signed32(u: nat): int {
    var w := u % 0x1_0000_0000;
    if w < 0x8000_0000 then w else w - 0x1_0000_0000
  }

  /** Lines 428-431: a flag word that is negative as an int becomes 0. */
  function Clamp(u: nat): (k: nat)
    ensures k < 0x8000_0000
  {
    var w := u % 0x1_0000_0000;
    if w >= 0x8000_0000 then 0 else w
  }

  /** wolfCLU_extKeyUsagePrint, whose return value is ignored. */
  function PurposePlan(doc: Doc): seq<Step> {
    [Put(Render(ExtKeyUsageText(Clamp(doc.extKeyUsage))), false)]
  }

  /** "%08lx" of the subject hash and a newline. */
  function HashPlan(h: nat): seq<Step> {
    [Put(Text(Hex08(h)), true), Put(Text("\n"), true)]
  }

  function TextPlan(doc: Doc): seq<Step> {
    [Put(Render(CertText(doc)), true)]
  }

  function PubKeyPlan(doc: Doc): seq<Step> {
    [Put(Render(CertPublicKey(doc)), true)]
  }

  /** PEM for -outform PEM, DER for every other form. */
  function CertPlan(doc: Doc, outForm: Form): seq<Step> {
    [Put(Encoding(if outForm == PemForm then PemForm else DerForm, true, doc), true)]
  }

  /** The writes of the description sections, in order. */
  function DescribedPlan(sel: Selection, doc: Doc, lib: Lib): seq<Step> {
    On(sel.subject, NamePlan(doc.subject)) + On(sel.issuer, NamePlan(doc.issuer))
    + On(sel.serial, SerialPlan(doc, lib)) + On(sel.dates, DatesPlan(doc))
    + On(sel.email, EmailPlan(doc.subject)) + On(sel.fingerprint, FingerprintPlan(lib))
    + On(sel.purpose, PurposePlan(doc)) + On(sel.hash, HashPlan(lib.nameHash))
  }

  /** The text and public-key writes. */
  function PrintedPlan(sel: Selection, doc: Doc): seq<Step> {
    On(sel.text, TextPlan(doc)) + On(sel.pubkey, PubKeyPlan(doc))
  }

  /** Every write before the certificate's, in order. */
  function Leading(sel: Selection, doc: Doc, lib: Lib): seq<Step> {
    DescribedPlan(sel, doc, lib) + PrintedPlan(sel, doc)
  }

  /** Every write of the command in order, as if the BIO had room for all. */
  function Plan(sel: Selection, doc: Doc, lib: Lib, outForm: Form): seq<Step> {
    DescribedPlan(sel, doc, lib) + (PrintedPlan(sel, doc) + On(!sel.noout, CertPlan(doc, outForm)))
  }

  // ---------------------------------------------------------------------
  // The command, section after section
  // ---------------------------------------------------------------------

  /** The return code and the BIO between sections. */
  datatype St = St(ret: int, written: seq<Chunk>, left: nat)

  function Status(ok: bool): int {
    if ok then WOLFCLU_SUCCESS else WOLFCLU_FATAL_ERROR
  }

  /** `if (ret == WOLFCLU_SUCCESS && flag) { ... }`: a section runs only
      while every earlier one succeeded, and its failure is fatal. */
  function Stage(st: St, p: seq<Step>): St {
    if st.ret != WOLFCLU_SUCCESS then st
    else
      var o := Perform(p, st.left);
      St(Status(o.ok), st.written + o.written, o.left)
  }

  /** Lines 212-460. */
  function Described(st: St, sel: Selection, doc: Doc, lib: Lib): St {
    var s1 := Stage(st, On(sel.subject, NamePlan(doc.subject)));
    var s2 := Stage(s1, On(sel.issuer, NamePlan(doc.issuer)));
    var s3 := Stage(s2, On(sel.serial, SerialPlan(doc, lib)));
    var s4 := Stage(s3, On(sel.dates, DatesPlan(doc)));
    var s5 := Stage(s4, On(sel.email, EmailPlan(doc.subject)));
    var s6 := Stage(s5, On(sel.fingerprint, FingerprintPlan(lib)));
    var s7 := Stage(s6, On(sel.purpose, PurposePlan(doc)));
    Stage(s7, On(sel.hash, HashPlan(lib.nameHash)))
  }

  /** Lines 463-490. */
  function Rendered(st: St, sel: Selection, doc: Doc, outForm: Form): St {
    var s1 := Stage(st, On(sel.text, TextPlan(doc)));
    var s2 := Stage(s1, On(sel.pubkey, PubKeyPlan(doc)));
    Stage(s2, On(!sel.noout, CertPlan(doc, outForm)))
  }

  datatype Report = Report(ret: int, target: Target, written: seq<Chunk>)

  /** wolfCLU_certSetup. */
  function Decide(line: ArgLine, lib: Lib): Report
    requires Valued(line)
  {
    if Present(line, "h") then Report(WOLFCLU_SUCCESS, Unopened, [])
    else
      var s := Open(line, lib);
      if s.ret != WOLFCLU_SUCCESS then Report(s.ret, Unopened, [])
      else
        var sel := Select(line);
        var st := Rendered(Described(St(WOLFCLU_SUCCESS, [], lib.room), sel, s.doc.value, lib),
                           sel, s.doc.value, s.outForm);
        Report(st.ret, s.target, st.written)
  }
  /** Lines that end on a flag are taken: `x509 -h` returns success, and
      `x509 -in c.pem -text` opens c.pem, failing with INPUT_FILE_ERROR
      when it is not there. */
  lemma FlagLines(lib: Lib)
    requires "c.pem" !in lib.readable
    ensures var line := ArgLine(["wolfssl", "x509", "-h"], map["h" := 2]);
      Valued(line) && Decide(line, lib).ret == WOLFCLU_SUCCESS
    ensures var line := ArgLine(["wolfssl", "x509", "-in", "c.pem", "-text"], map["in" := 2, "text" := 4]);
      Valued(line) && Decide(line, lib).ret == INPUT_FILE_ERROR
  {
  }


  // ---------------------------------------------------------------------
  // Walking a plan one write at a time
  // ---------------------------------------------------------------------

  /** Write k of plan p, after the writes before it succeeded. */
  method Next(sink: Sink, c: Chunk, checked: bool, ghost p: seq<Step>, ghost k: nat,
              ghost c0: seq<Chunk>, ghost r0: nat) returns (ok: bool)
    requires k < |p| && p[k] == Put(c, checked)
    requires sink.Ran(p[..k], c0, r0) && Perform(p[..k], r0).ok
    modifies sink
    ensures sink.Ran(p[..k + 1], c0, r0)
    ensures Perform(p[..k + 1], r0).ok == (ok || !checked)
    ensures !ok ==> sink.room == 0
  {
    assert p[..k + 1] == p[..k] + [Put(c, checked)];
    ok := Emit(sink, c, checked, p[..k], c0, r0);
    PerformAppend(p[..k], [Put(c, checked)], r0);
    assert [Put(c, checked)][1..] == [];
  }

  /** A printer that returns failure without writing. */
  lemma Halt(p: seq<Step>, k: nat, r0: nat)
    requires k < |p| && p[k] == Abort && Perform(p[..k], r0).ok
    ensures Perform(p[..k + 1], r0) == Perform(p[..k], r0).(ok := false)
  {
    assert p[..k + 1] == p[..k] + [Abort];
    PerformAppend(p[..k], [Abort], r0);
  }

  /** After a failure, the rest of the plan changes nothing. */
  lemma Settle(p: seq<Step>, k: nat, r0: nat)
    requires k <= |p| && !Perform(p[..k], r0).ok
    ensures Perform(p, r0) == Perform(p[..k], r0)
  {
    assert p == p[..k] + p[k..];
    PerformAfterFailure(p[..k], p[k..], r0);
  }

  // ---------------------------------------------------------------------
  // The sections
  // ---------------------------------------------------------------------

  /** Lines 221-227 and 239-245. */
  method PrintName(sink: Sink, name: seq<NameEntry>) returns (ret: int)
    modifies sink
    ensures sink.Ran(NamePlan(name), old(sink.chunks), old(sink.room))
    ensures ret == Status(Perform(NamePlan(name), old(sink.room)).ok)
  {
    ghost var p, c0, r0 := NamePlan(name), sink.chunks, sink.room;
    var _ := Next(sink, Render(NameLine(name)), false, p, 0, c0, r0);
    var _ := Next(sink, Text("\n"), false, p, 1, c0, r0);
    assert p[..2] == p;
    ret := WOLFCLU_SUCCESS;
  }

  /** Lines 262-279: the label, one write per byte while nothing failed, and
      the newline. */
  method PrintSerial(sink: Sink, serial: seq<byte>) returns (ret: int)
    modifies sink
    ensures sink.Ran(SerialLine(serial), old(sink.chunks), old(sink.room))
    ensures ret == Status(Perform(SerialLine(serial), old(sink.room)).ok)
  {
    ghost var p, c0, r0 := SerialLine(serial), sink.chunks, sink.room;
    ret := WOLFCLU_SUCCESS;
    var ok := Next(sink, Text("serial="), true, p, 0, c0, r0);
    if !ok {
      ret := WOLFCLU_FATAL_ERROR;
      Settle(p, 1, r0);
    }
    var i := 0;
    while i < |serial|
      invariant 0 <= i <= |serial|
      invariant ret == WOLFCLU_SUCCESS ==> sink.Ran(p[..i + 1], c0, r0) && Perform(p[..i + 1], r0).ok
      invariant ret != WOLFCLU_SUCCESS ==> ret == WOLFCLU_FATAL_ERROR && sink.Ran(p, c0, r0) && !Perform(p, r0).ok
    {
      if ret == WOLFCLU_SUCCESS {
        assert p[i + 1] == Put(Text(Hex2(serial[i], true)), true);
        ok := Next(sink, Text(Hex2(serial[i], true)), true, p, i + 1, c0, r0);
        if !ok {
          ret := WOLFCLU_FATAL_ERROR;
          Settle(p, i + 2, r0);
          break;
        }
      }
      i := i + 1;
    }
    if ret == WOLFCLU_SUCCESS {
      ok := Next(sink, Text("\n"), true, p, |serial| + 1, c0, r0);
      assert p[..|serial| + 2] == p;
      if !ok {
        ret := WOLFCLU_FATAL_ERROR;
      }
    }
  }

  /** wolfSSL_ASN1_TIME_print as step k of plan p. */
  method PrintTime(sink: Sink, t: Option<int>, ghost p: seq<Step>, ghost k: nat,
                   ghost c0: seq<Chunk>, ghost r0: nat) returns (ok: bool)
    requires k < |p| && p[k] == TimePlan(t)[0]
    requires sink.Ran(p[..k], c0, r0) && Perform(p[..k], r0).ok
    modifies sink
    ensures sink.Ran(p[..k + 1], c0, r0)
    ensures Perform(p[..k + 1], r0).ok == ok
  {
    if t.None? {
      Halt(p, k, r0);
      ok := false;
    } else {
      ok := Next(sink, Render(TimeText(t.value)), true, p, k, c0, r0);
    }
  }

  /** Lines 290-317. */
  method PrintDates(sink: Sink, doc: Doc) returns (ret: int)
    modifies sink
    ensures sink.Ran(DatesPlan(doc), old(sink.chunks), old(sink.room))
    ensures ret == Status(Perform(DatesPlan(doc), old(sink.room)).ok)
  {
    ghost var p, c0, r0 := DatesPlan(doc), sink.chunks, sink.room;
    ghost var k := 0;
    ret := WOLFCLU_SUCCESS;
    var ok := Next(sink, Text("notBefore="), true, p, 0, c0, r0);
    k := 1;
    if !ok {
      ret := WOLFCLU_FATAL_ERROR;
    }
    if ret == WOLFCLU_SUCCESS {
      ok := PrintTime(sink, doc.notBefore, p, 1, c0, r0);
      k := 2;
      if !ok {
        ret := WOLFCLU_FATAL_ERROR;
      }
    }
    if ret == WOLFCLU_SUCCESS {
      ok := Next(sink, Text("\n"), true, p, 2, c0, r0);
      k := 3;
      if !ok {
        ret := WOLFCLU_FATAL_ERROR;
      }
    }
    if ret == WOLFCLU_SUCCESS {
      ok := Next(sink, Text("notAfter="), true, p, 3, c0, r0);
      k := 4;
      if !ok {
        ret := WOLFCLU_FATAL_ERROR;
      }
    }
    if ret == WOLFCLU_SUCCESS {
      ok := PrintTime(sink, doc.notAfter, p, 4, c0, r0);
      k := 5;
      if !ok {
        ret := WOLFCLU_FATAL_ERROR;
      }
    }
    if ret == WOLFCLU_SUCCESS {
      ok := Next(sink, Text("\n"), true, p, 5, c0, r0);
      k := 6;
      if !ok {
        ret := WOLFCLU_FATAL_ERROR;
      }
    }
    if ret == WOLFCLU_SUCCESS {
      assert p[..6] == p;
    } else {
      Settle(p, k, r0);
    }
  }

  /** Lines 327-375: the address is looked up, copied and written. */
  method PrintEmail(sink: Sink, name: seq<NameEntry>) returns (ret: int)
    modifies sink
    ensures sink.Ran(EmailPlan(name), old(sink.chunks), old(sink.room))
    ensures ret == Status(Perform(EmailPlan(name), old(sink.room)).ok)
  {
    ghost var p, c0, r0 := EmailPlan(name), sink.chunks, sink.room;
    ret := WOLFCLU_SUCCESS;
    var email := EmailOf(name);
    if email.None? {
      ret := WOLFCLU_FATAL_ERROR;   // the size query is negative
    }
    if ret == WOLFCLU_SUCCESS && email.value == "" {
      ret := WOLFCLU_FATAL_ERROR;   // the copy returns 0 characters
    }
    if ret != WOLFCLU_SUCCESS {
      Halt(p, 0, r0);
      assert p[..1] == p;
    } else {
      var ok := Next(sink, Text(email.value), true, p, 0, c0, r0);
      if !ok {
        ret := WOLFCLU_FATAL_ERROR;
        Settle(p, 1, r0);
      } else {
        ok := Next(sink, Text("\n"), true, p, 1, c0, r0);
        assert p[..2] == p;
        if !ok {
          ret := WOLFCLU_FATAL_ERROR;
        }
      }
    }
  }

  /** Lines 398-413: the label, then one write per digest byte, stopping at
      the first failure; the byte loop does not look at `ret`. */
  method PrintFingerprint(sink: Sink, digest: seq<byte>) returns (ret: int)
    modifies sink
    ensures sink.Ran(FingerprintLine(digest), old(sink.chunks), old(sink.room))
    ensures ret == Status(Perform(FingerprintLine(digest), old(sink.room)).ok)
  {
    ghost var p, c0, r0 := FingerprintLine(digest), sink.chunks, sink.room;
    ret := WOLFCLU_SUCCESS;
    var ok := Next(sink, Text("SHA1 of cert. DER : "), true, p, 0, c0, r0);
    if !ok {
      ret := WOLFCLU_FATAL_ERROR;
      Settle(p, 1, r0);
    }
    var i := 0;
    while i < |digest|
      invariant 0 <= i <= |digest|
      invariant ret == WOLFCLU_SUCCESS ==> sink.Ran(p[..i + 1], c0, r0) && Perform(p[..i + 1], r0).ok
      invariant ret != WOLFCLU_SUCCESS ==>
        ret == WOLFCLU_FATAL_ERROR && sink.room == 0 && sink.Ran(p, c0, r0) && !Perform(p, r0).ok
    {
      if ret == WOLFCLU_SUCCESS {
        assert p[i + 1] == Put(Text(Hex2(digest[i], true)), true);
        ok := Next(sink, Text(Hex2(digest[i], true)), true, p, i + 1, c0, r0);
        if !ok {
          Settle(p, i + 2, r0);
        }
      } else {
        // the label's write failed, so the BIO has no room and this one fails too
        ok := sink.Write(Text(Hex2(digest[i], true)));
      }
      if !ok {
        ret := WOLFCLU_FATAL_ERROR;
        break;
      }
      i := i + 1;
    }
    if ret == WOLFCLU_SUCCESS {
      ok := Next(sink, Text("\n"), true, p, |digest| + 1, c0, r0);
      assert p[..|digest| + 2] == p;
      if !ok {
        ret := WOLFCLU_FATAL_ERROR;
      }
    }
  }

  /** Lines 426-433: the flag word, clamped, is handed to the printer. */
  method PrintPurpose(sink: Sink, doc: Doc) returns (ret: int)
    modifies sink
    ensures sink.Ran(PurposePlan(doc), old(sink.chunks), old(sink.room))
    ensures ret == Status(Perform(PurposePlan(doc), old(sink.room)).ok)
  {
    ghost var p, c0, r0 := PurposePlan(doc), sink.chunks, sink.room;
    var keyUsage: nat := doc.extKeyUsage % 0x1_0000_0000;
    if Signed32(keyUsage) < 0 {
      keyUsage := 0;
    }
    var _ := Next(sink, Render(ExtKeyUsageText(keyUsage)), false, p, 0, c0, r0);
    assert p[..1] == p;
    ret := WOLFCLU_SUCCESS;
  }

  /** Lines 447-459. */
  method PrintHash(sink: Sink, h: nat) returns (ret: int)
    modifies sink
    ensures sink.Ran(HashPlan(h), old(sink.chunks), old(sink.room))
    ensures ret == Status(Perform(HashPlan(h), old(sink.room)).ok)
  {
    ghost var p, c0, r0 := HashPlan(h), sink.chunks, sink.room;
    ret := WOLFCLU_SUCCESS;
    var ok := Next(sink, Text(Hex08(h)), true, p, 0, c0, r0);
    if !ok {
      ret := WOLFCLU_FATAL_ERROR;
      Settle(p, 1, r0);
    } else {
      ok := Next(sink, Text("\n"), true, p, 1, c0, r0);
      assert p[..2] == p;
      if !ok {
        ret := WOLFCLU_FATAL_ERROR;
      }
    }
  }

  /** One checked library write (wolfSSL_X509_print, wolfCLU_printX509PubKey,
      wolfSSL_PEM_write_bio_X509, wolfSSL_i2d_X509_bio). */
  method PrintOne(sink: Sink, c: Chunk) returns (ret: int)
    modifies sink
    ensures sink.Ran([Put(c, true)], old(sink.chunks), old(sink.room))
    ensures ret == Status(Perform([Put(c, true)], old(sink.room)).ok)
  {
    ghost var p, c0, r0 := [Put(c, true)], sink.chunks, sink.room;
    var ok := Next(sink, c, true, p, 0, c0, r0);
    assert p[..1] == p;
    ret := if ok then WOLFCLU_SUCCESS else WOLFCLU_FATAL_ERROR;
  }

  // ---------------------------------------------------------------------
  // The command
  // ---------------------------------------------------------------------

  predicate Mirrors(st: St, ret: int, sink: Sink)
    reads sink
  {
    ret == st.ret && sink.chunks == st.written && sink.room == st.left
  }

  /** Lines 86-209 after -h: the options, the input and the output BIO. */
  method OpenInput(line: ArgLine, lib: Lib) returns (ret: int, doc: Option<Doc>, target: Target, outForm: Form)
    requires Valued(line)
    ensures Setup(ret, doc, target, outForm) == Open(line, lib)
  {
    ret := WOLFCLU_SUCCESS;
    var inForm := PemForm;
    outForm := PemForm;
    var inFile: Option<string> := None;
    var outFile: Option<string> := None;
    doc := None;
    target := Unopened;
    if ret == WOLFCLU_SUCCESS {
      var idx := Search(line, "inform");
      if idx > 0 {
        inForm := lib.inform;
      }
    }
    if ret == WOLFCLU_SUCCESS {
      var idx := Search(line, "outform");
      if idx > 0 {
        outForm := lib.outform;
      }
    }
    if ret == WOLFCLU_SUCCESS {
      var idx := Search(line, "in");
      if idx > 0 {
        inFile := Some(line.argv[idx + 1]);
        if inFile.value !in lib.readable {
          ret := INPUT_FILE_ERROR;
        }
      } else {
        ret := WOLFCLU_FATAL_ERROR;
      }
    }
    if ret == WOLFCLU_SUCCESS {
      var idx := Search(line, "out");
      if idx > 0 {
        outFile := Some(line.argv[idx + 1]);
      }
      if idx < 0 {
        ret := WOLFCLU_FATAL_ERROR;
      }
    }
    if ret == WOLFCLU_SUCCESS {
      doc := Parse(inFile.value, inForm, lib);
      if doc.None? {
        ret := WOLFCLU_FATAL_ERROR;
      }
    }
    if ret == WOLFCLU_SUCCESS && outFile.Some? && outFile.value in lib.writable {
      target := ToFile(outFile.value);
    }
    if ret == WOLFCLU_SUCCESS && target == Unopened {
      target := ToStdout;
    }
  }

  /** Lines 212-246: subject and issuer. */
  method PrintNames(sink: Sink, sel: Selection, doc: Doc, ret0: int, ghost st: St) returns (ret: int)
    requires Mirrors(st, ret0, sink)
    modifies sink
    ensures Mirrors(Stage(Stage(st, On(sel.subject, NamePlan(doc.subject))), On(sel.issuer, NamePlan(doc.issuer))),
                    ret, sink)
  {
    ret := ret0;
    if ret == WOLFCLU_SUCCESS && sel.subject {
      ret := PrintName(sink, doc.subject);
    }
    assert Mirrors(Stage(st, On(sel.subject, NamePlan(doc.subject))), ret, sink);
    if ret == WOLFCLU_SUCCESS && sel.issuer {
      ret := PrintName(sink, doc.issuer);
    }
  }

  /** Lines 248-318: serial and dates. */
  method PrintSerialAndDates(sink: Sink, sel: Selection, doc: Doc, lib: Lib, ret0: int, ghost st: St)
    returns (ret: int)
    requires Mirrors(st, ret0, sink)
    modifies sink
    ensures Mirrors(Stage(Stage(st, On(sel.serial, SerialPlan(doc, lib))), On(sel.dates, DatesPlan(doc))),
                    ret, sink)
  {
    ret := ret0;
    if ret == WOLFCLU_SUCCESS && sel.serial && lib.serialOk {
      ret := PrintSerial(sink, doc.serial);
    }
    assert Mirrors(Stage(st, On(sel.serial, SerialPlan(doc, lib))), ret, sink);
    if ret == WOLFCLU_SUCCESS && sel.dates {
      ret := PrintDates(sink, doc);
    }
  }

  /** Lines 320-417: email and fingerprint. */
  method PrintEmailAndFingerprint(sink: Sink, sel: Selection, doc: Doc, lib: Lib, ret0: int, ghost st: St)
    returns (ret: int)
    requires Mirrors(st, ret0, sink)
    modifies sink
    ensures Mirrors(Stage(Stage(st, On(sel.email, EmailPlan(doc.subject))),
                          On(sel.fingerprint, FingerprintPlan(lib))), ret, sink)
  {
    ret := ret0;
    if ret == WOLFCLU_SUCCESS && sel.email {
      ret := PrintEmail(sink, doc.subject);
    }
    assert Mirrors(Stage(st, On(sel.email, EmailPlan(doc.subject))), ret, sink);
    if ret == WOLFCLU_SUCCESS && sel.fingerprint && lib.digest.Some? {
      ret := PrintFingerprint(sink, lib.digest.value);
    }
  }

  /** Lines 419-460: purpose and subject hash. */
  method PrintPurposeAndHash(sink: Sink, sel: Selection, doc: Doc, lib: Lib, ret0: int, ghost st: St)
    returns (ret: int)
    requires Mirrors(st, ret0, sink)
    modifies sink
    ensures Mirrors(Stage(Stage(st, On(sel.purpose, PurposePlan(doc))), On(sel.hash, HashPlan(lib.nameHash))),
                    ret, sink)
  {
    ret := ret0;
    if ret == WOLFCLU_SUCCESS && sel.purpose {
      ret := PrintPurpose(sink, doc);
    }
    assert Mirrors(Stage(st, On(sel.purpose, PurposePlan(doc))), ret, sink);
    if ret == WOLFCLU_SUCCESS && sel.hash {
      ret := PrintHash(sink, lib.nameHash);
    }
  }

  /** Lines 212-460. */
  method Describe(sink: Sink, sel: Selection, doc: Doc, lib: Lib, ghost st: St) returns (ret: int)
    requires Mirrors(st, WOLFCLU_SUCCESS, sink)
    modifies sink
    ensures Mirrors(Described(st, sel, doc, lib), ret, sink)
  {
    ghost var s2 := Stage(Stage(st, On(sel.subject, NamePlan(doc.subject))), On(sel.issuer, NamePlan(doc.issuer)));
    ghost var s4 := Stage(Stage(s2, On(sel.serial, SerialPlan(doc, lib))), On(sel.dates, DatesPlan(doc)));
    ghost var s6 := Stage(Stage(s4, On(sel.email, EmailPlan(doc.subject))), On(sel.fingerprint, FingerprintPlan(lib)));
    ret := PrintNames(sink, sel, doc, WOLFCLU_SUCCESS, st);
    ret := PrintSerialAndDates(sink, sel, doc, lib, ret, s2);
    ret := PrintEmailAndFingerprint(sink, sel, doc, lib, ret, s4);
    ret := PrintPurposeAndHash(sink, sel, doc, lib, ret, s6);
  }

  /** Lines 463-490. */
  method Show(sink: Sink, sel: Selection, doc: Doc, outForm: Form, ret0: int, ghost st: St) returns (ret: int)
    requires Mirrors(st, ret0, sink)
    modifies sink
    ensures Mirrors(Rendered(st, sel, doc, outForm), ret, sink)
  {
    ret := ret0;
    ghost var s := st;
    if ret == WOLFCLU_SUCCESS && sel.text {
      ret := PrintOne(sink, Render(CertText(doc)));
    }
    s := Stage(s, On(sel.text, TextPlan(doc)));
    assert Mirrors(s, ret, sink);
    if ret == WOLFCLU_SUCCESS && sel.pubkey {
      ret := PrintOne(sink, Render(CertPublicKey(doc)));
    }
    s := Stage(s, On(sel.pubkey, PubKeyPlan(doc)));
    assert Mirrors(s, ret, sink);
    if ret == WOLFCLU_SUCCESS && !sel.noout {
      if outForm == PemForm {
        ret := PrintOne(sink, Encoding(PemForm, true, doc));
      } else {
        ret := PrintOne(sink, Encoding(DerForm, true, doc));
      }
    }
    s := Stage(s, On(!sel.noout, CertPlan(doc, outForm)));
    assert Mirrors(s, ret, sink);
  }

  /** wolfCLU_certSetup: the return code, where the output went, and the
      BIO (null when the command returned before opening it). */
  method CertSetup(line: ArgLine, lib: Lib) returns (ret: int, target: Target, bioOut: Sink?)
    requires Valued(line)
    ensures Report(ret, target, if bioOut == null then [] else bioOut.chunks) == Decide(line, lib)
  {
    if Present(line, "h") {
      return WOLFCLU_SUCCESS, Unopened, null;
    }
    var sel := Select(line);
    var doc, outForm;
    ret, doc, target, outForm := OpenInput(line, lib);
    bioOut := null;
    if ret == WOLFCLU_SUCCESS {
      bioOut := new Sink(lib.room);
      ghost var st := St(WOLFCLU_SUCCESS, [], lib.room);
      ret := Describe(bioOut, sel, doc.value, lib, st);
      ret := Show(bioOut, sel, doc.value, outForm, ret, Described(st, sel, doc.value, lib));
    }
  }

  // ---------------------------------------------------------------------
  // The sections follow one plan
  // ---------------------------------------------------------------------

  /** Two sections run one after the other write what their plans joined
      write. */
  lemma StageAppend(st: St, p: seq<Step>, q: seq<Step>)
    ensures Stage(Stage(st, p), q) == Stage(st, p + q)
  {
    if st.ret == WOLFCLU_SUCCESS {
      PerformAppend(p, q, st.left);
      var o := Perform(p, st.left);
      if o.ok {
        var o2 := Perform(q, o.left);
        assert st.written + o.written + o2.written == st.written + (o.written + o2.written);
      }
    }
  }

  /** The state a whole run of plan steps leaves. */
  function Final(o: Outcome): St {
    St(Status(o.ok), o.written, o.left)
  }

  lemma StageChain8(st: St, a1: seq<Step>, a2: seq<Step>, a3: seq<Step>, a4: seq<Step>,
                    a5: seq<Step>, a6: seq<Step>, a7: seq<Step>, a8: seq<Step>)
    ensures Stage(Stage(Stage(Stage(Stage(Stage(Stage(Stage(st, a1), a2), a3), a4), a5), a6), a7), a8)
            == Stage(st, a1 + a2 + a3 + a4 + a5 + a6 + a7 + a8)
  {
    StageAppend(st, a1, a2);
    StageAppend(st, a1 + a2, a3);
    StageAppend(st, a1 + a2 + a3, a4);
    StageAppend(st, a1 + a2 + a3 + a4, a5);
    StageAppend(st, a1 + a2 + a3 + a4 + a5, a6);
    StageAppend(st, a1 + a2 + a3 + a4 + a5 + a6, a7);
    StageAppend(st, a1 + a2 + a3 + a4 + a5 + a6 + a7, a8);
  }

  lemma StageChain3(st: St, a1: seq<Step>, a2: seq<Step>, a3: seq<Step>)
    ensures Stage(Stage(Stage(st, a1), a2), a3) == Stage(st, a1 + a2 + a3)
  {
    StageAppend(st, a1, a2);
    StageAppend(st, a1 + a2, a3);
  }

  lemma SectionsFollowPlan(sel: Selection, doc: Doc, lib: Lib, outForm: Form, room: nat)
    ensures Rendered(Described(St(WOLFCLU_SUCCESS, [], room), sel, doc, lib), sel, doc, outForm)
            == Final(Perform(Plan(sel, doc, lib, outForm), room))
  {
    var st := St(WOLFCLU_SUCCESS, [], room);
    var d := DescribedPlan(sel, doc, lib);
    StageChain8(st, On(sel.subject, NamePlan(doc.subject)), On(sel.issuer, NamePlan(doc.issuer)),
                On(sel.serial, SerialPlan(doc, lib)), On(sel.dates, DatesPlan(doc)),
                On(sel.email, EmailPlan(doc.subject)), On(sel.fingerprint, FingerprintPlan(lib)),
                On(sel.purpose, PurposePlan(doc)), On(sel.hash, HashPlan(lib.nameHash)));
    assert Described(st, sel, doc, lib) == Stage(st, d);
    var t, k, c := On(sel.text, TextPlan(doc)), On(sel.pubkey, PubKeyPlan(doc)), On(!sel.noout, CertPlan(doc, outForm));
    StageChain3(Stage(st, d), t, k, c);
    StageAppend(st, d, t + k + c);
    var o := Perform(Plan(sel, doc, lib, outForm), room);
    assert [] + o.written == o.written;
  }

  /** The writes of a command whose input decoded. */
  function PlanOf(line: ArgLine, lib: Lib): seq<Step>
    requires Valued(line) && Open(line, lib).ret == WOLFCLU_SUCCESS
  {
    var s := Open(line, lib);
    Plan(Select(line), s.doc.value, lib, s.outForm)
  }

  /** Once the input decoded, the command's output and return code are those
      of its plan run against the BIO's room. */
  lemma DecideFollowsPlan(line: ArgLine, lib: Lib)
    requires Valued(line) && !Present(line, "h") && Open(line, lib).ret == WOLFCLU_SUCCESS
    ensures Decide(line, lib).target == Open(line, lib).target
    ensures Decide(line, lib).written == Perform(PlanOf(line, lib), lib.room).written
    ensures Decide(line, lib).ret == Status(Perform(PlanOf(line, lib), lib.room).ok)
  {
    var s := Open(line, lib);
    SectionsFollowPlan(Select(line), s.doc.value, lib, s.outForm, lib.room);
  }

  /** What a plan writes is a prefix of what it means to write. */
  lemma {:induction false} PerformPrefix(p: seq<Step>, room: nat)
    ensures Perform(p, room).written <= Chunks(p)
  {
    if p != [] {
      match p[0]
      case Abort =>
      case Put(c, checked) =>
        if room > 0 {
          PerformPrefix(p[1..], room - 1);
        } else if !checked {
          PerformNoRoom(p[1..]);
        }
    }
  }

  /** The parts come out in the fixed order: the output is always a prefix
      of the parts asked for, and the return code is success or fatal. */
  lemma OutputInOrder(line: ArgLine, lib: Lib)
    requires Valued(line) && !Present(line, "h") && Open(line, lib).ret == WOLFCLU_SUCCESS
    ensures Decide(line, lib).written <= Chunks(PlanOf(line, lib))
    ensures Decide(line, lib).ret == WOLFCLU_SUCCESS || Decide(line, lib).ret == WOLFCLU_FATAL_ERROR
  {
    DecideFollowsPlan(line, lib);
    PerformPrefix(PlanOf(line, lib), lib.room);
  }

  /** With room for every write and no printer failing, every part is
      written and the command succeeds. */
  lemma EveryPartWritten(line: ArgLine, lib: Lib)
    requires Valued(line) && !Present(line, "h") && Open(line, lib).ret == WOLFCLU_SUCCESS
    requires NoAbort(PlanOf(line, lib)) && |PlanOf(line, lib)| <= lib.room
    ensures Decide(line, lib).written == Chunks(PlanOf(line, lib))
    ensures Decide(line, lib).ret == WOLFCLU_SUCCESS
  {
    DecideFollowsPlan(line, lib);
    PerformWithRoom(PlanOf(line, lib), lib.room);
  }

  /** The first failure ends the output: if the first k writes already
      fail, nothing after them is written and the command is fatal. */
  lemma FirstFailureEndsOutput(line: ArgLine, lib: Lib, k: nat)
    requires Valued(line) && !Present(line, "h") && Open(line, lib).ret == WOLFCLU_SUCCESS
    requires k <= |PlanOf(line, lib)| && !Perform(PlanOf(line, lib)[..k], lib.room).ok
    ensures Decide(line, lib).written == Perform(PlanOf(line, lib)[..k], lib.room).written
    ensures Decide(line, lib).ret == WOLFCLU_FATAL_ERROR
  {
    DecideFollowsPlan(line, lib);
    Settle(PlanOf(line, lib), k, lib.room);
  }

  /** -h, a missing or unopenable -in, a negative -out answer and a failed
      decode return before the output BIO is opened. */
  lemma EarlyReturns(line: ArgLine, lib: Lib)
    requires Valued(line)
    ensures Present(line, "h") ==> Decide(line, lib) == Report(WOLFCLU_SUCCESS, Unopened, [])
    ensures !Present(line, "h") && !Present(line, "in") ==>
      Decide(line, lib) == Report(WOLFCLU_FATAL_ERROR, Unopened, [])
    ensures !Present(line, "h") && Present(line, "in") && ValueOf(line, "in") !in lib.readable ==>
      Decide(line, lib) == Report(INPUT_FILE_ERROR, Unopened, [])
    ensures Open(line, lib).ret != WOLFCLU_SUCCESS ==> Open(line, lib).target == Unopened
    ensures !Present(line, "h") && Open(line, lib).ret != WOLFCLU_SUCCESS ==> Decide(line, lib).written == []
  {
  }

  /** The certificate is decoded from the -in file in the -inform form (PEM
      by default), and its failure to decode is fatal. */
  lemma DecodedPerInform(line: ArgLine, lib: Lib)
    requires Valued(line) && Present(line, "in") && ValueOf(line, "in") in lib.readable
    requires Search(line, "out") >= 0
    ensures Open(line, lib).doc
            == Parse(ValueOf(line, "in"), if Present(line, "inform") then lib.inform else PemForm, lib)
    ensures Open(line, lib).ret == WOLFCLU_SUCCESS <==> Open(line, lib).doc.Some?
    ensures Open(line, lib).ret != WOLFCLU_SUCCESS ==> Open(line, lib).ret == WOLFCLU_FATAL_ERROR
  {
  }

  // ---------------------------------------------------------------------
  // What the lines say
  // ---------------------------------------------------------------------

  /** The text of a run of chunks. */
  function Flatten(cs: seq<Chunk>): string {
    if cs == [] then "" else (if cs[0].Text? then cs[0].s else "") + Flatten(cs[1..])
  }

  predicate AllText(cs: seq<Chunk>) {
    forall i :: 0 <= i < |cs| ==> cs[i].Text?
  }

  lemma {:induction false} ChunksAppend(p: seq<Step>, q: seq<Step>)
    ensures Chunks(p + q) == Chunks(p) + Chunks(q)
  {
    if p == [] {
      assert p + q == q;
    } else {
      assert (p + q)[1..] == p[1..] + q;
      ChunksAppend(p[1..], q);
    }
  }

  lemma {:induction false} FlattenAppend(a: seq<Chunk>, b: seq<Chunk>)
    ensures Flatten(a + b) == Flatten(a) + Flatten(b)
  {
    if a == [] {
      assert a + b == b;
    } else {
      assert (a + b)[1..] == a[1..] + b;
      FlattenAppend(a[1..], b);
    }
  }

  /** The byte writes spell the bytes in upper-case hex. */
  lemma {:induction false} HexPlanText(bs: seq<byte>)
    ensures NoAbort(HexPlan(bs)) && AllText(Chunks(HexPlan(bs)))
    ensures Flatten(Chunks(HexPlan(bs))) == HexBytes(bs, true)
  {
    if bs != [] {
      var head := [Put(Text(Hex2(bs[0], true)), true)];
      assert HexPlan(bs) == head + HexPlan(bs[1..]);
      HexPlanText(bs[1..]);
      ChunksAppend(head, HexPlan(bs[1..]));
      FlattenAppend([Text(Hex2(bs[0], true))], Chunks(HexPlan(bs[1..])));
    }
  }

  lemma NoAbortAppend(p: seq<Step>, q: seq<Step>)
    requires NoAbort(p) && NoAbort(q)
    ensures NoAbort(p + q)
  {
    forall i | 0 <= i < |p + q|
      ensures (p + q)[i].Put?
    {
      if i >= |p| {
        assert (p + q)[i] == q[i - |p|];
      }
    }
  }

  lemma AllTextAppend(a: seq<Chunk>, b: seq<Chunk>)
    requires AllText(a) && AllText(b)
    ensures AllText(a + b)
  {
    forall i | 0 <= i < |a + b|
      ensures (a + b)[i].Text?
    {
      if i >= |a| {
        assert (a + b)[i] == b[i - |a|];
      }
    }
  }

  /** One text write. */
  lemma TextStep(s: string, checked: bool)
    ensures Chunks([Put(Text(s), checked)]) == [Text(s)]
    ensures Flatten([Text(s)]) == s
  {
    assert [Put(Text(s), checked)][1..] == [];
    assert [Text(s)][1..] == [];
  }

  /** A label, hex bytes and a newline. */
  lemma LabelledHexText(tag: string, bs: seq<byte>, p: seq<Step>)
    requires p == [Put(Text(tag), true)] + HexPlan(bs) + [Put(Text("\n"), true)]
    ensures NoAbort(p) && AllText(Chunks(p))
    ensures Flatten(Chunks(p)) == tag + HexBytes(bs, true) + "\n"
  {
    HexPlanText(bs);
    var l, h, n := [Put(Text(tag), true)], HexPlan(bs), [Put(Text("\n"), true)];
    TextStep(tag, true);
    TextStep("\n", true);
    NoAbortAppend(l, h);
    NoAbortAppend(l + h, n);
    ChunksAppend(l + h, n);
    ChunksAppend(l, h);
    AllTextAppend([Text(tag)], Chunks(h));
    AllTextAppend([Text(tag)] + Chunks(h), [Text("\n")]);
    FlattenAppend([Text(tag)] + Chunks(h), [Text("\n")]);
    FlattenAppend([Text(tag)], Chunks(h));
  }

  /** The serial line is "serial=", two upper-case hex digits per byte and a
      newline, and the digits read back as the serial number. */
  lemma SerialLineText(serial: seq<byte>)
    ensures NoAbort(SerialLine(serial)) && AllText(Chunks(SerialLine(serial)))
    ensures Flatten(Chunks(SerialLine(serial))) == "serial=" + HexBytes(serial, true) + "\n"
    ensures UnhexPairs(HexBytes(serial, true)) == serial
  {
    LabelledHexText("serial=", serial, SerialLine(serial));
    HexBytesRoundTrip(serial, true);
  }

  /** The fingerprint line is the label and the digest in upper-case hex. */
  lemma FingerprintLineText(digest: seq<byte>)
    ensures NoAbort(FingerprintLine(digest)) && AllText(Chunks(FingerprintLine(digest)))
    ensures Flatten(Chunks(FingerprintLine(digest))) == "SHA1 of cert. DER : " + HexBytes(digest, true) + "\n"
    ensures UnhexPairs(HexBytes(digest, true)) == digest
  {
    LabelledHexText("SHA1 of cert. DER : ", digest, FingerprintLine(digest));
    HexBytesRoundTrip(digest, true);
  }

  /** The subject hash is printed in hex digits that read back as the hash,
      eight of them for a 32-bit hash. */
  lemma HashLineText(h: nat)
    ensures NoAbort(HashPlan(h)) && AllText(Chunks(HashPlan(h)))
    ensures Flatten(Chunks(HashPlan(h))) == Hex08(h) + "\n"
    ensures HexDigitsValue(Hex08(h)) == h
    ensures h < 0x1_0000_0000 ==> |Hex08(h)| == 8
  {
    var x, n := [Put(Text(Hex08(h)), true)], [Put(Text("\n"), true)];
    assert HashPlan(h) == x + n;
    TextStep(Hex08(h), true);
    TextStep("\n", true);
    ChunksAppend(x, n);
    AllTextAppend([Text(Hex08(h))], [Text("\n")]);
    FlattenAppend([Text(Hex08(h))], [Text("\n")]);
    Hex08Value(h);
    if h < 0x1_0000_0000 {
      Hex08Width(h);
    }
  }

  /** The clamp is the C test `(int)keyUsage < 0` on the 32-bit word. */
  lemma ClampIsSignedTest(u: nat)
    ensures Clamp(u) == if Signed32(u) < 0 then 0 else Signed32(u)
    ensures Clamp(u) == u <==> u < 0x8000_0000
  {
  }

  predicate NoCertificate(p: seq<Step>) {
    forall i :: 0 <= i < |p| && p[i].Put? ==> !p[i].chunk.Encoding?
  }

  lemma NoCertificateAppend(p: seq<Step>, q: seq<Step>)
    requires NoCertificate(p) && NoCertificate(q)
    ensures NoCertificate(p + q)
  {
    forall i | 0 <= i < |p + q| && (p + q)[i].Put?
      ensures !(p + q)[i].chunk.Encoding?
    {
      if i >= |p| {
        assert (p + q)[i] == q[i - |p|];
      }
    }
  }

  lemma {:induction false} ChunkFromStep(p: seq<Step>, c: Chunk)
    requires c in Chunks(p)
    ensures exists i :: 0 <= i < |p| && p[i].Put? && p[i].chunk == c
  {
    if p[0].Put? && p[0].chunk == c {
    } else {
      ChunkFromStep(p[1..], c);
      var i :| 0 <= i < |p[1..]| && p[1..][i].Put? && p[1..][i].chunk == c;
      assert p[i + 1] == p[1..][i];
    }
  }

  lemma NoCertificateChain(a1: seq<Step>, a2: seq<Step>, a3: seq<Step>, a4: seq<Step>,
                            a5: seq<Step>, a6: seq<Step>, a7: seq<Step>, a8: seq<Step>)
    requires NoCertificate(a1) && NoCertificate(a2) && NoCertificate(a3) && NoCertificate(a4)
    requires NoCertificate(a5) && NoCertificate(a6) && NoCertificate(a7) && NoCertificate(a8)
    ensures NoCertificate(a1 + a2 + a3 + a4 + a5 + a6 + a7 + a8)
  {
    NoCertificateAppend(a1, a2);
    NoCertificateAppend(a1 + a2, a3);
    NoCertificateAppend(a1 + a2 + a3, a4);
    NoCertificateAppend(a1 + a2 + a3 + a4, a5);
    NoCertificateAppend(a1 + a2 + a3 + a4 + a5, a6);
    NoCertificateAppend(a1 + a2 + a3 + a4 + a5 + a6, a7);
    NoCertificateAppend(a1 + a2 + a3 + a4 + a5 + a6 + a7, a8);
  }

  lemma HexLineHasNoCertificate(tag: string, bs: seq<byte>)
    ensures NoCertificate([Put(Text(tag), true)] + HexPlan(bs) + [Put(Text("\n"), true)])
  {
    NoCertificateAppend([Put(Text(tag), true)], HexPlan(bs));
    NoCertificateAppend([Put(Text(tag), true)] + HexPlan(bs), [Put(Text("\n"), true)]);
  }

  lemma DatesHaveNoCertificate(doc: Doc)
    ensures NoCertificate(DatesPlan(doc))
  {
    var b, a := TimePlan(doc.notBefore), TimePlan(doc.notAfter);
    NoCertificateAppend([Put(Text("notBefore="), true)], b);
    NoCertificateAppend([Put(Text("notBefore="), true)] + b, [Put(Text("\n"), true), Put(Text("notAfter="), true)]);
    NoCertificateAppend([Put(Text("notBefore="), true)] + b + [Put(Text("\n"), true), Put(Text("notAfter="), true)], a);
    NoCertificateAppend([Put(Text("notBefore="), true)] + b + [Put(Text("\n"), true), Put(Text("notAfter="), true)] + a,
                        [Put(Text("\n"), true)]);
  }

  lemma PartsHaveNoCertificate(doc: Doc, lib: Lib)
    ensures NoCertificate(NamePlan(doc.subject)) && NoCertificate(NamePlan(doc.issuer))
    ensures NoCertificate(SerialPlan(doc, lib)) && NoCertificate(DatesPlan(doc))
    ensures NoCertificate(EmailPlan(doc.subject)) && NoCertificate(FingerprintPlan(lib))
    ensures NoCertificate(PurposePlan(doc)) && NoCertificate(HashPlan(lib.nameHash))
  {
    HexLineHasNoCertificate("serial=", doc.serial);
    if lib.digest.Some? {
      HexLineHasNoCertificate("SHA1 of cert. DER : ", lib.digest.value);
    }
    DatesHaveNoCertificate(doc);
  }

  lemma OnHasNoCertificate(b: bool, p: seq<Step>)
    requires NoCertificate(p)
    ensures NoCertificate(On(b, p))
  {
  }

  lemma DescribedHasNoCertificate(sel: Selection, doc: Doc, lib: Lib)
    ensures NoCertificate(DescribedPlan(sel, doc, lib))
  {
    PartsHaveNoCertificate(doc, lib);
    OnHasNoCertificate(sel.subject, NamePlan(doc.subject));
    OnHasNoCertificate(sel.issuer, NamePlan(doc.issuer));
    OnHasNoCertificate(sel.serial, SerialPlan(doc, lib));
    OnHasNoCertificate(sel.dates, DatesPlan(doc));
    OnHasNoCertificate(sel.email, EmailPlan(doc.subject));
    OnHasNoCertificate(sel.fingerprint, FingerprintPlan(lib));
    OnHasNoCertificate(sel.purpose, PurposePlan(doc));
    OnHasNoCertificate(sel.hash, HashPlan(lib.nameHash));
    NoCertificateChain(On(sel.subject, NamePlan(doc.subject)), On(sel.issuer, NamePlan(doc.issuer)),
                       On(sel.serial, SerialPlan(doc, lib)), On(sel.dates, DatesPlan(doc)),
                       On(sel.email, EmailPlan(doc.subject)), On(sel.fingerprint, FingerprintPlan(lib)),
                       On(sel.purpose, PurposePlan(doc)), On(sel.hash, HashPlan(lib.nameHash)));
  }

  /** Only the last section writes the certificate. */
  lemma LeadingHasNoCertificate(sel: Selection, doc: Doc, lib: Lib)
    ensures NoCertificate(Leading(sel, doc, lib))
  {
    DescribedHasNoCertificate(sel, doc, lib);
    NoCertificateAppend(On(sel.text, TextPlan(doc)), On(sel.pubkey, PubKeyPlan(doc)));
    NoCertificateAppend(DescribedPlan(sel, doc, lib), PrintedPlan(sel, doc));
  }

  /** -noout: no encoding of the certificate reaches the BIO. */
  lemma NooutWritesNoCertificate(line: ArgLine, lib: Lib)
    requires Valued(line) && !Present(line, "h") && Open(line, lib).ret == WOLFCLU_SUCCESS
    requires Present(line, "noout")
    ensures forall c :: c in Decide(line, lib).written ==> !c.Encoding?
  {
    var s := Open(line, lib);
    DecideFollowsPlan(line, lib);
    LeadingHasNoCertificate(Select(line), s.doc.value, lib);
    assert PlanOf(line, lib) == DescribedPlan(Select(line), s.doc.value, lib) + (PrintedPlan(Select(line), s.doc.value) + []);
    assert PrintedPlan(Select(line), s.doc.value) + [] == PrintedPlan(Select(line), s.doc.value);
    forall c | c in Decide(line, lib).written
      ensures !c.Encoding?
    {
      PerformWritesPlanned(PlanOf(line, lib), lib.room, c);
      ChunkFromStep(PlanOf(line, lib), c);
    }
  }

  /** A plan that runs to the end without -noout ends with the certificate. */
  lemma PlanEndsWithCertificate(sel: Selection, doc: Doc, lib: Lib, outForm: Form, room: nat)
    requires !sel.noout && Perform(Plan(sel, doc, lib, outForm), room).ok
    ensures Perform(Plan(sel, doc, lib, outForm), room).written != []
    ensures var w := Perform(Plan(sel, doc, lib, outForm), room).written;
      w[|w| - 1] == Encoding(if outForm == PemForm then PemForm else DerForm, true, doc)
  {
    var c := Encoding(if outForm == PemForm then PemForm else DerForm, true, doc);
    Assoc(DescribedPlan(sel, doc, lib), PrintedPlan(sel, doc), [Put(c, true)]);
    EndsWith(Leading(sel, doc, lib), c, room);
  }

  /** Without -noout a successful command ends with the certificate, in PEM
      exactly when -outform asked for PEM (or was absent), else in DER. */
  lemma CertificateWrittenLast(line: ArgLine, lib: Lib)
    requires Valued(line) && !Present(line, "h") && Open(line, lib).ret == WOLFCLU_SUCCESS
    requires !Present(line, "noout") && Decide(line, lib).ret == WOLFCLU_SUCCESS
    ensures Decide(line, lib).written != []
    ensures var w := Decide(line, lib).written;
      var form := if Present(line, "outform") then lib.outform else PemForm;
      w[|w| - 1] == Encoding(if form == PemForm then PemForm else DerForm, true, Open(line, lib).doc.value)
  {
    var s := Open(line, lib);
    DecideFollowsPlan(line, lib);
    PlanEndsWithCertificate(Select(line), s.doc.value, lib, s.outForm, lib.room);
  }

  /** A plan whose last, checked write succeeds ends with that write. */
  lemma EndsWith(p: seq<Step>, c: Chunk, room: nat)
    requires Perform(p + [Put(c, true)], room).ok
    ensures Perform(p + [Put(c, true)], room).written != []
    ensures var w := Perform(p + [Put(c, true)], room).written; w[|w| - 1] == c
  {
    PerformAppend(p, [Put(c, true)], room);
    var o := Perform(p, room);
    assert [Put(c, true)][1..] == [];
    assert o.left > 0;
    assert Perform([Put(c, true)], o.left).written == [c];
  }
}
