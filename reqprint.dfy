/** The text form of a certificate request that `req -text` prints
    (wolfSSL_X509_REQ_print and its helpers in clu_request_setup.c): version,
    serial number, subject, public key, requested extensions, attributes and
    the signature dump. Each printer is a method on the output sink, proved to
    perform exactly the steps of a plan function; the properties of the text
    are lemmas about the plans. */
module RequestPrint {
  import opened Common
  import opened Text
  import opened Document
  import opened Output
  import KeyUsage

  /** Checked writes of whole lines, in order. */
  function CheckedLines(ls: seq<string>): seq<Step> {
    if ls == [] then [] else CheckedLines(ls[..|ls| - 1]) + [Put(Text(ls[|ls| - 1]), true)]
  }

  lemma CheckedLinesSnoc(ls: seq<string>, l: string)
    ensures CheckedLines(ls + [l]) == CheckedLines(ls) + [Put(Text(l), true)]
  {
    assert (ls + [l])[..|ls|] == ls;
  }

  /** A plan whose every step is a write whose failure is ignored. */
  predicate Unchecked(p: seq<Step>) {
    forall i :: 0 <= i < |p| ==> p[i].Put? && !p[i].checked
  }

  /** A printer that ignores all its write results reports success. */
  lemma {:induction false} UncheckedOk(p: seq<Step>, room: nat)
    requires Unchecked(p)
    ensures Perform(p, room).ok
  {
    if p != [] {
      assert p[0].Put? && !p[0].checked;
      assert Unchecked(p[1..]) by {
        forall i | 0 <= i < |p[1..]| ensures p[1..][i].Put? && !p[1..][i].checked {
          assert p[1..][i] == p[i + 1];
        }
      }
      UncheckedOk(p[1..], if room > 0 then room - 1 else 0);
    }
  }

  lemma UncheckedAppend(p: seq<Step>, q: seq<Step>)
    requires Unchecked(p) && Unchecked(q)
    ensures Unchecked(p + q)
  {
    forall i | 0 <= i < |p + q| ensures (p + q)[i].Put? && !(p + q)[i].checked {
      if i < |p| {
        assert (p + q)[i] == p[i];
      } else {
        assert (p + q)[i] == q[i - |p|];
      }
    }
  }

  // ---------------------------------------------------------------------
  // Version (_wolfSSL_X509_version_print)
  // ---------------------------------------------------------------------

  /** wolfSSL_X509_version reports the stored version plus one. */
  function ReportedVersion(doc: Doc): int {
    doc.version + 1
  }

  /** The "%x" of `(byte)version - 1`: the byte is promoted to int, so a
      version whose low byte is 0 prints as the unsigned 32-bit -1. */
  function VersionHex(v: nat): string {
    HexNat(((v % 256) - 1) % 0x1_0000_0000)
  }

  function VersionLine(v: nat): string {
    " " + NatToString(v) + " (0x" + VersionHex(v) + ")\n"
  }

  function VersionPlan(doc: Doc, indent: nat): seq<Step> {
    var v := ReportedVersion(doc);
    if v < 0 then [Abort]
    else [Put(Text(Spaces(indent) + "Version:"), true), Put(Text(VersionLine(v)), true)]
  }

  method VersionPrint(sink: Sink, doc: Doc, indent: nat) returns (r: int)
    modifies sink
    ensures sink.Ran(VersionPlan(doc, indent), old(sink.chunks), old(sink.room))
    ensures r == Code(Perform(VersionPlan(doc, indent), old(sink.room)).ok)
  {
    ghost var c0, r0 := sink.chunks, sink.room;
    var version := ReportedVersion(doc);
    if version < 0 {
      assert Perform([Abort], r0) == Outcome([], r0, false);
      return WOLFSSL_FAILURE;
    }
    var first := Put(Text(Spaces(indent) + "Version:"), true);
    var ok := Emit(sink, Text(Spaces(indent) + "Version:"), true, [], c0, r0);
    assert [] + [first] == [first];
    if !ok {
      PerformAfterFailure([first], [Put(Text(VersionLine(version)), true)], r0);
      return WOLFSSL_FAILURE;
    }
    ok := Emit(sink, Text(VersionLine(version)), true, [first], c0, r0);
    r := Code(ok);
  }

  /** The version printer fails exactly when the reported version is
      negative or one of its two lines cannot be written. */
  lemma VersionPrintOk(doc: Doc, indent: nat, room: nat)
    ensures Perform(VersionPlan(doc, indent), room).ok <==> ReportedVersion(doc) >= 0 && room >= 2
  {
    var p := VersionPlan(doc, indent);
    if ReportedVersion(doc) >= 0 {
      if room >= 2 {
        PerformWithRoom(p, room);
      } else {
        assert p[1..][0] == p[1] && p[1..][1..] == [];
      }
    }
  }

  /** The decimal field reads back as the reported version, and for stored
      versions 0 to 254 the hexadecimal field reads back as the stored one. */
  lemma VersionLineFields(doc: Doc)
    requires 0 <= doc.version <= 254
    ensures Atoi(NatToString(ReportedVersion(doc))) == ReportedVersion(doc)
    ensures HexDigitsValue(VersionHex(ReportedVersion(doc))) == doc.version
  {
    var v := ReportedVersion(doc);
    AtoiOfDecimal(v);
    SmallVersionHex(v);
    HexNatValue(doc.version);
  }

  /** Below 256 the byte is the version itself and nothing wraps. */
  lemma SmallVersionHex(v: nat)
    requires 1 <= v <= 255
    ensures VersionHex(v) == HexNat(v - 1)
  {
    assert v % 256 == v;
    assert (v - 1) % 0x1_0000_0000 == v - 1;
  }

  /** Stored version 255 reports 256, whose low byte is 0: the hexadecimal
      field shows 0xffffffff. */
  lemma VersionHexWraps()
    ensures VersionHex(256) == "ffffffff"
  {
    assert ((256 % 256) - 1) % 0x1_0000_0000 == 0xffffffff;
    assert HexNat(0xf) == "f";
    assert HexNat(0xff) == "ff";
    assert HexNat(0xfff) == "fff";
    assert HexNat(0xffff) == "ffff";
    assert HexNat(0xfffff) == "fffff";
    assert HexNat(0xffffff) == "ffffff";
    assert HexNat(0xfffffff) == "fffffff";
  }

  // ---------------------------------------------------------------------
  // Serial number (_wolfSSL_X509_print_serial)
  // ---------------------------------------------------------------------

  /** Size of the buffer wolfSSL_X509_get_serial_number fills; a longer
      serial makes the call fail. */
  const SERIAL_BUFFER: nat := 32

  /** "%02x:" for each byte, as the loop appends them to tmp. */
  function ColonTerminated(bs: seq<byte>): (s: string)
    ensures |s| == 3 * |bs|
  {
    if bs == [] then [] else ColonTerminated(bs[..|bs| - 1]) + Hex2(bs[|bs| - 1], false) + ":"
  }

  /** The hex line of a serial: "%02x:" per byte but the last, then "%02x\n". */
  function SerialLine(bs: seq<byte>): (s: string)
    requires |bs| >= 1
    ensures |s| == 3 * |bs|
  {
    ColonTerminated(bs[..|bs| - 1]) + Hex2(bs[|bs| - 1], false) + "\n"
  }

  /** A serial that does not fit the buffer, and a serial of one byte whose
      same-line branch sits inside the guard `sz > 1`, print nothing. */
  function SerialPlan(doc: Doc, indent: nat): seq<Step> {
    var s := doc.serial;
    if |s| > SERIAL_BUFFER || |s| <= 1 then []
    else [Put(Text(Spaces(indent) + "Serial Number:"), true),
          Put(Text("\n" + Spaces(indent)), true),
          Put(Text(SerialLine(s)), true)]
  }

  method SerialPrint(sink: Sink, doc: Doc, indent: nat) returns (r: int)
    modifies sink
    ensures sink.Ran(SerialPlan(doc, indent), old(sink.chunks), old(sink.room))
    ensures r == Code(Perform(SerialPlan(doc, indent), old(sink.room)).ok)
  {
    ghost var c0, r0 := sink.chunks, sink.room;
    var serial := doc.serial;
    var sz := |serial|;
    if sz <= SERIAL_BUFFER && sz > 1 {
      var s1 := Put(Text(Spaces(indent) + "Serial Number:"), true);
      var ok := Emit(sink, Text(Spaces(indent) + "Serial Number:"), true, [], c0, r0);
      assert [] + [s1] == [s1];
      var tmp := SerialText(serial);
      var s2 := Put(Text("\n" + Spaces(indent)), true);
      var s3 := Put(Text(tmp), true);
      if !ok {
        PerformAfterFailure([s1], [s2, s3], r0);
        return WOLFSSL_FAILURE;
      }
      ok := Emit(sink, Text("\n" + Spaces(indent)), true, [s1], c0, r0);
      if !ok {
        PerformAfterFailure([s1, s2], [s3], r0);
        return WOLFSSL_FAILURE;
      }
      ok := Emit(sink, Text(tmp), true, [s1, s2], c0, r0);
      assert [s1, s2] + [s3] == SerialPlan(doc, indent);
      if !ok {
        return WOLFSSL_FAILURE;
      }
    }
    r := WOLFSSL_SUCCESS;
  }

  /** The loop that fills tmp[100] with the serial's hex line; with at most
      32 bytes its `3 * i < 100 - 5` bound never stops it early. */
  method SerialText(serial: seq<byte>) returns (tmp: string)
    requires 1 < |serial| <= SERIAL_BUFFER
    ensures tmp == SerialLine(serial)
  {
    var sz := |serial|;
    tmp := [];
    var i := 0;
    while i < sz - 1 && 3 * i < 100 - 5
      invariant 0 <= i <= sz - 1
      invariant tmp == ColonTerminated(serial[..i])
    {
      assert serial[..i + 1][..i] == serial[..i];
      tmp := tmp + Hex2(serial[i], false) + ":";
      i := i + 1;
    }
    tmp := tmp + Hex2(serial[i], false) + "\n";
  }

  /** The three characters the serial line spends on byte i. */
  function Field(s: string, i: nat): string
    requires 3 * i + 3 <= |s|
  {
    s[3 * i..3 * i + 3]
  }

  lemma {:induction false} ColonTerminatedFields(bs: seq<byte>)
    ensures forall i :: 0 <= i < |bs| ==> Field(ColonTerminated(bs), i) == Hex2(bs[i], false) + ":"
    decreases |bs|
  {
    if bs != [] {
      var front := bs[..|bs| - 1];
      ColonTerminatedFields(front);
      var s := ColonTerminated(bs);
      assert s == ColonTerminated(front) + (Hex2(bs[|bs| - 1], false) + ":");
      forall i | 0 <= i < |bs| ensures Field(s, i) == Hex2(bs[i], false) + ":" {
        if i < |front| {
          assert Field(s, i) == Field(ColonTerminated(front), i);
          assert front[i] == bs[i];
        } else {
          assert Field(s, i) == s[3 * |front|..];
        }
      }
    }
  }

  /** Byte i of the serial is printed as its two lower-case digits at column
      3i, followed by ':' or, after the last byte, a newline. */
  lemma SerialLineFields(bs: seq<byte>)
    requires |bs| >= 1
    ensures forall i :: 0 <= i < |bs| ==>
      Field(SerialLine(bs), i) == Hex2(bs[i], false) + [if i == |bs| - 1 then '\n' else ':']
  {
    var front := bs[..|bs| - 1];
    ColonTerminatedFields(front);
    var s := SerialLine(bs);
    forall i | 0 <= i < |bs|
      ensures Field(s, i) == Hex2(bs[i], false) + [if i == |bs| - 1 then '\n' else ':']
    {
      if i < |front| {
        assert Field(s, i) == Field(ColonTerminated(front), i);
        assert front[i] == bs[i];
      } else {
        assert Field(s, i) == s[3 * |front|..];
      }
    }
  }

  /** A one-byte serial is not printed at all. */
  lemma OneByteSerialUnprinted(doc: Doc, indent: nat)
    requires |doc.serial| == 1
    ensures SerialPlan(doc, indent) == []
  {
  }

  // ---------------------------------------------------------------------
  // Subject and public key (_X509_name_print, _wolfSSL_X509_pubkey_print)
  // ---------------------------------------------------------------------

  function NamePlan(name: seq<NameEntry>, title: string, indent: nat): seq<Step> {
    [Put(Text(Spaces(indent) + title), false), Put(Render(NameText(name)), false),
     Put(Text("\n"), false)]
  }

  method NamePrint(sink: Sink, name: seq<NameEntry>, title: string, indent: nat) returns (r: int)
    modifies sink
    ensures sink.Ran(NamePlan(name, title, indent), old(sink.chunks), old(sink.room))
    ensures r == Code(Perform(NamePlan(name, title, indent), old(sink.room)).ok)
  {
    ghost var c0, r0 := sink.chunks, sink.room;
    var s1 := Put(Text(Spaces(indent) + title), false);
    var s2 := Put(Render(NameText(name)), false);
    var _ := Emit(sink, Text(Spaces(indent) + title), false, [], c0, r0);
    assert [] + [s1] == [s1];
    var _ := Emit(sink, Render(NameText(name)), false, [s1], c0, r0);
    var _ := Emit(sink, Text("\n"), false, [s1, s2], c0, r0);
    assert [s1, s2] + [Put(Text("\n"), false)] == NamePlan(name, title, indent);
    r := WOLFSSL_SUCCESS;
  }

  function PubKeyPlan(doc: Doc, indent: nat): seq<Step> {
    [Put(Text(Spaces(indent) + "Public Key:\n"), false), Put(Render(PublicKeyText(doc.pubKey)), false)]
  }

  method PubKeyPrint(sink: Sink, doc: Doc, indent: nat) returns (r: int)
    modifies sink
    ensures sink.Ran(PubKeyPlan(doc, indent), old(sink.chunks), old(sink.room))
    ensures r == Code(Perform(PubKeyPlan(doc, indent), old(sink.room)).ok)
  {
    ghost var c0, r0 := sink.chunks, sink.room;
    var s1 := Put(Text(Spaces(indent) + "Public Key:\n"), false);
    var _ := Emit(sink, Text(Spaces(indent) + "Public Key:\n"), false, [], c0, r0);
    assert [] + [s1] == [s1];
    var _ := Emit(sink, Render(PublicKeyText(doc.pubKey)), false, [s1], c0, r0);
    r := WOLFSSL_SUCCESS;
  }

  /** Neither the subject nor the public-key printer can fail. */
  lemma NameAndKeyPrintOk(doc: Doc, title: string, indent: nat, room: nat)
    ensures Perform(NamePlan(doc.subject, title, indent), room).ok
    ensures Perform(PubKeyPlan(doc, indent), room).ok
  {
    UncheckedOk(NamePlan(doc.subject, title, indent), room);
    UncheckedOk(PubKeyPlan(doc, indent), room);
  }

  // ---------------------------------------------------------------------
  // Requested extensions (_wolfSSL_X509_extensions_print)
  // ---------------------------------------------------------------------

  /** wolfSSL_X509_get_key_usage: the flags of the first keyUsage extension,
      or 0 when there is none. */
  function DocKeyUsage(exts: seq<Extension>): int {
    if exts == [] then 0
    else if exts[0].value.KeyUsage? then exts[0].value.bits as int
    else DocKeyUsage(exts[1..])
  }

  /** One line per alternative name. */
  function AltLines(alts: seq<AltName>, indent: nat): seq<Step> {
    if alts == [] then []
    else AltLines(alts[..|alts| - 1], indent) + [Put(Render(AltNameText(indent, alts[|alts| - 1])), false)]
  }

  predicate HasSan(exts: seq<Extension>) {
    exists j :: 0 <= j < |exts| && exts[j].nid == NID_subject_alt_name
  }

  /** wolfSSL_X509_get_next_altname walks one cursor over the names and does
      not rewind it: the first subjectAltName extension prints them all and
      any later one prints none. */
  function AltsLeft(exts: seq<Extension>, alts: seq<AltName>): seq<AltName> {
    if HasSan(exts) then [] else alts
  }

  /** What is printed under one extension's heading. */
  function ExtBody(e: Extension, alts: seq<AltName>, keyUsage: int, indent: nat): seq<Step> {
    if e.nid == NID_subject_alt_name then AltLines(alts, indent + 8)
    else if e.nid == NID_key_usage then KeyUsage.KeyUsagePlan(keyUsage, indent + 8)
    else [Put(Text(Spaces(indent + 8) + "NID " + IntToString(e.nid) + " print not yet supported\n"), false)]
  }

  function ExtEntries(exts: seq<Extension>, alts: seq<AltName>, keyUsage: int, indent: nat): seq<Step> {
    if exts == [] then []
    else
      var front := exts[..|exts| - 1];
      var e := exts[|exts| - 1];
      ExtEntries(front, alts, keyUsage, indent)
      + [ExtHeading(e, indent)] + ExtBody(e, AltsLeft(front, alts), keyUsage, indent)
  }

  function ExtensionsPlan(doc: Doc, indent: nat): seq<Step> {
    if |doc.extensions| == 0 then []
    else
      [Put(Text(Spaces(indent) + "Requested extensions:\n"), true)]
      + ExtEntries(doc.extensions, doc.altNames, DocKeyUsage(doc.extensions), indent)
  }

  lemma AltsLeftSnoc(exts: seq<Extension>, e: Extension, alts: seq<AltName>)
    ensures AltsLeft(exts + [e], alts) ==
      (if e.nid == NID_subject_alt_name then [] else AltsLeft(exts, alts))
  {
    var x := exts + [e];
    if e.nid == NID_subject_alt_name {
      assert x[|exts|].nid == NID_subject_alt_name;
    } else if HasSan(exts) {
      var j :| 0 <= j < |exts| && exts[j].nid == NID_subject_alt_name;
      assert x[j] == exts[j];
    } else {
      forall j | 0 <= j < |x| ensures x[j].nid != NID_subject_alt_name {
        if j < |exts| {
          assert x[j] == exts[j];
        }
      }
    }
  }

  /** Prints the remaining alternative names, one line each. */
  method PrintAltNames(sink: Sink, alts: seq<AltName>, indent: nat, ghost p: seq<Step>,
                       ghost c0: seq<Chunk>, ghost r0: nat)
    requires sink.Ran(p, c0, r0) && Perform(p, r0).ok
    modifies sink
    ensures sink.Ran(p + AltLines(alts, indent), c0, r0)
    ensures Perform(p + AltLines(alts, indent), r0).ok
  {
    var j := 0;
    assert alts[..0] == [] && p + [] == p;
    while j < |alts|
      invariant 0 <= j <= |alts|
      invariant sink.Ran(p + AltLines(alts[..j], indent), c0, r0)
      invariant Perform(p + AltLines(alts[..j], indent), r0).ok
    {
      assert alts[..j + 1][..j] == alts[..j];
      ghost var q := p + AltLines(alts[..j], indent);
      var _ := Emit(sink, Render(AltNameText(indent, alts[j])), false, q, c0, r0);
      assert q + [Put(Render(AltNameText(indent, alts[j])), false)] == p + AltLines(alts[..j + 1], indent);
      j := j + 1;
    }
    assert alts[..j] == alts;
  }

  function ExtHeading(e: Extension, indent: nat): Step {
    Put(Render(ExtensionHeading(indent + 4, e.nid, e.critical)), false)
  }

  lemma ExtEntriesSnoc(exts: seq<Extension>, e: Extension, alts: seq<AltName>, keyUsage: int, indent: nat)
    ensures ExtEntries(exts + [e], alts, keyUsage, indent) ==
      ExtEntries(exts, alts, keyUsage, indent) + [ExtHeading(e, indent)] + ExtBody(e, AltsLeft(exts, alts), keyUsage, indent)
  {
    assert (exts + [e])[..|exts|] == exts;
  }

  /** One extension: its heading, then its body; `alts` are the alternative
      names the cursor has not yet passed. */
  method PrintExtension(sink: Sink, e: Extension, alts: seq<AltName>, keyUsage: int, indent: nat,
                        ghost q: seq<Step>, ghost c0: seq<Chunk>, ghost r0: nat) returns (left: seq<AltName>)
    requires sink.Ran(q, c0, r0) && Perform(q, r0).ok
    modifies sink
    ensures sink.Ran(q + [ExtHeading(e, indent)] + ExtBody(e, alts, keyUsage, indent), c0, r0)
    ensures Perform(q + [ExtHeading(e, indent)] + ExtBody(e, alts, keyUsage, indent), r0).ok
    ensures left == if e.nid == NID_subject_alt_name then [] else alts
  {
    var _ := Emit(sink, Render(ExtensionHeading(indent + 4, e.nid, e.critical)), false, q, c0, r0);
    ghost var q1 := q + [ExtHeading(e, indent)];
    ghost var body := ExtBody(e, alts, keyUsage, indent);
    left := alts;
    if e.nid == NID_subject_alt_name {
      PrintAltNames(sink, alts, indent + 8, q1, c0, r0);
      left := [];
    } else if e.nid == NID_key_usage {
      ghost var c1, r1 := sink.chunks, sink.room;
      var _ := KeyUsage.KeyUsagePrint(sink, keyUsage, indent + 8);
      Compose(q1, body, c0, r0, c1, r1, sink.chunks, sink.room);
      if keyUsage > 0 {
        KeyUsage.NameLinesOk(KeyUsage.PrintNames(KeyUsage.Word(keyUsage)), indent + 8, r1);
      }
    } else {
      var line := Spaces(indent + 8) + "NID " + IntToString(e.nid) + " print not yet supported\n";
      var _ := Emit(sink, Text(line), false, q1, c0, r0);
    }
  }

  /** Where the extension loop stands before extension i: the alternative
      names not yet passed, and everything planned for the first i
      extensions written without failure. */
  ghost predicate ExtState(sink: Sink, doc: Doc, i: nat, alts: seq<AltName>, head: Step,
                           indent: nat, c0: seq<Chunk>, r0: nat)
    requires i <= |doc.extensions|
    reads sink
  {
    var done := [head] + ExtEntries(doc.extensions[..i], doc.altNames, DocKeyUsage(doc.extensions), indent);
    && alts == AltsLeft(doc.extensions[..i], doc.altNames)
    && sink.Ran(done, c0, r0)
    && Perform(done, r0).ok
  }

  /** One pass of the extension loop. */
  method PrintNthExtension(sink: Sink, doc: Doc, i: nat, alts: seq<AltName>, keyUsage: int,
                           indent: nat, ghost head: Step, ghost c0: seq<Chunk>, ghost r0: nat)
    returns (left: seq<AltName>)
    requires i < |doc.extensions| && keyUsage == DocKeyUsage(doc.extensions)
    requires ExtState(sink, doc, i, alts, head, indent, c0, r0)
    modifies sink
    ensures ExtState(sink, doc, i + 1, left, head, indent, c0, r0)
  {
    var exts := doc.extensions;
    ghost var front := exts[..i];
    assert exts[..i + 1] == front + [exts[i]];
    ghost var entries := ExtEntries(front, doc.altNames, keyUsage, indent);
    ghost var body := ExtBody(exts[i], alts, keyUsage, indent);
    left := PrintExtension(sink, exts[i], alts, keyUsage, indent, [head] + entries, c0, r0);
    AltsLeftSnoc(front, exts[i], doc.altNames);
    ExtEntriesSnoc(front, exts[i], doc.altNames, keyUsage, indent);
    AppendAssoc([head], entries, [ExtHeading(exts[i], indent)], body);
  }

  method ExtensionsPrint(sink: Sink, doc: Doc, indent: nat) returns (r: int)
    modifies sink
    ensures sink.Ran(ExtensionsPlan(doc, indent), old(sink.chunks), old(sink.room))
    ensures r == Code(Perform(ExtensionsPlan(doc, indent), old(sink.room)).ok)
  {
    ghost var c0, r0 := sink.chunks, sink.room;
    var exts := doc.extensions;
    var count := |exts|;
    if count > 0 {
      var head := Put(Text(Spaces(indent) + "Requested extensions:\n"), true);
      var ok := Emit(sink, Text(Spaces(indent) + "Requested extensions:\n"), true, [], c0, r0);
      assert [] + [head] == [head];
      if !ok {
        PerformAfterFailure([head], ExtEntries(exts, doc.altNames, DocKeyUsage(exts), indent), r0);
        return WOLFSSL_FAILURE;
      }
      var keyUsage := DocKeyUsage(exts);
      var alts := doc.altNames;
      var i := 0;
      assert exts[..0] == [] && [head] + [] == [head];
      while i < count
        invariant 0 <= i <= count
        invariant ExtState(sink, doc, i, alts, head, indent, c0, r0)
      {
        alts := PrintNthExtension(sink, doc, i, alts, keyUsage, indent, head, c0, r0);
        i := i + 1;
      }
      assert exts[..i] == exts;
    } else {
      assert ExtensionsPlan(doc, indent) == [];
    }
    r := WOLFSSL_SUCCESS;
  }

  lemma {:induction false} AltLinesUnchecked(alts: seq<AltName>, indent: nat)
    ensures Unchecked(AltLines(alts, indent))
  {
    if alts != [] {
      AltLinesUnchecked(alts[..|alts| - 1], indent);
      UncheckedAppend(AltLines(alts[..|alts| - 1], indent), [Put(Render(AltNameText(indent, alts[|alts| - 1])), false)]);
    }
  }

  lemma {:induction false} NameLinesUnchecked(names: seq<string>, indent: nat)
    ensures Unchecked(KeyUsage.NameLines(names, indent))
  {
    if names != [] {
      NameLinesUnchecked(names[1..], indent);
      UncheckedAppend([Put(Text(Spaces(indent) + names[0] + "\n"), false)], KeyUsage.NameLines(names[1..], indent));
    }
  }

  lemma {:induction false} ExtEntriesUnchecked(exts: seq<Extension>, alts: seq<AltName>, keyUsage: int, indent: nat)
    ensures Unchecked(ExtEntries(exts, alts, keyUsage, indent))
    decreases |exts|
  {
    if exts != [] {
      var front := exts[..|exts| - 1];
      var e := exts[|exts| - 1];
      ExtEntriesUnchecked(front, alts, keyUsage, indent);
      var body := ExtBody(e, AltsLeft(front, alts), keyUsage, indent);
      if e.nid == NID_subject_alt_name {
        AltLinesUnchecked(AltsLeft(front, alts), indent + 8);
      } else if e.nid == NID_key_usage {
        if keyUsage > 0 {
          NameLinesUnchecked(KeyUsage.PrintNames(KeyUsage.Word(keyUsage)), indent + 8);
        }
      }
      UncheckedAppend(ExtEntries(front, alts, keyUsage, indent), [ExtHeading(e, indent)]);
      UncheckedAppend(ExtEntries(front, alts, keyUsage, indent) + [ExtHeading(e, indent)], body);
    }
  }

  /** The extension printer fails only when its heading cannot be written:
      every line after it goes out unchecked. */
  lemma ExtensionsPrintOk(doc: Doc, indent: nat, room: nat)
    ensures Perform(ExtensionsPlan(doc, indent), room).ok <==> |doc.extensions| == 0 || room > 0
  {
    if |doc.extensions| > 0 {
      var rest := ExtEntries(doc.extensions, doc.altNames, DocKeyUsage(doc.extensions), indent);
      ExtEntriesUnchecked(doc.extensions, doc.altNames, DocKeyUsage(doc.extensions), indent);
      assert ExtensionsPlan(doc, indent)[1..] == rest;
      if room > 0 {
        UncheckedOk(rest, room - 1);
      }
    }
  }

  // ---------------------------------------------------------------------
  // Signature (_wolfSSL_X509_signature_print_ex)
  // ---------------------------------------------------------------------

  /** The bytes per line of the signature dump. */
  const SIG_LINE: nat := 18

  /** The dump loop's state after some bytes: the lines written and tmp. */
  datatype Dump = Dump(lines: seq<string>, tmp: string)

  /** The dump's state after the bytes bs: the first byte starts tmp after
      eight blanks; a byte at a multiple of 18 first writes tmp and starts a
      new one with ":\n" and eight blanks; any other byte adds ":%02x". */
  function DumpOf(bs: seq<byte>): Dump
    requires |bs| >= 1
  {
    var h := Hex2(bs[|bs| - 1], false);
    if |bs| == 1 then Dump([], Spaces(8) + h)
    else
      var d := DumpOf(bs[..|bs| - 1]);
      if (|bs| - 1) % SIG_LINE == 0 then Dump(d.lines + [d.tmp], ":\n" + Spaces(8) + h)
      else Dump(d.lines, d.tmp + ":" + h)
  }

  /** The lines of the dump as the code writes them: the buffered last line
      only when (sigSz - 1) % 18 != 0. */
  function AsWrittenSigLines(sig: seq<byte>): seq<string> {
    if sig == [] then []
    else if (|sig| - 1) % SIG_LINE != 0 then DumpOf(sig).lines + [DumpOf(sig).tmp]
    else DumpOf(sig).lines
  }

  /** The lines of the dump with the buffered last line always written. */
  function SigLines(sig: seq<byte>): seq<string> {
    if sig == [] then [] else DumpOf(sig).lines + [DumpOf(sig).tmp]
  }

  function SignatureHead(doc: Doc, indent: nat): seq<Step> {
    [Put(Text(Spaces(indent) + "Signature Algorithm: "), true), Put(Render(SignatureAlgorithm(doc)), true)]
  }

  function SignaturePlan(doc: Doc, indent: nat): seq<Step> {
    if |doc.signature| == 0 then []
    else SignatureHead(doc, indent) + CheckedLines(SigLines(doc.signature))
  }

  /** The lines of a shorter dump are the first lines of a longer one. */
  lemma {:induction false} DumpLinesGrow(bs: seq<byte>, j: nat)
    requires 1 <= j <= |bs|
    ensures DumpOf(bs[..j]).lines <= DumpOf(bs).lines
    ensures DumpOf(bs[..j]).lines <= SigLines(bs)
    decreases |bs| - j
  {
    if j < |bs| {
      var bs' := bs[..|bs| - 1];
      assert bs'[..j] == bs[..j];
      DumpLinesGrow(bs', j);
      assert bs[..|bs|] == bs;
    } else {
      assert bs[..j] == bs;
    }
  }

  lemma CheckedLinesPrefix(a: seq<string>, b: seq<string>)
    requires a <= b
    ensures CheckedLines(b) == CheckedLines(a) + CheckedLines(b[|a|..])
    decreases |b|
  {
    if |b| > |a| {
      var f := b[..|b| - 1];
      assert a <= f;
      CheckedLinesPrefix(a, f);
      assert f[|a|..] == b[|a|..][..|b[|a|..]| - 1];
    } else {
      assert a == b;
      assert b[|a|..] == [];
    }
  }

  /** One step of the dump loop, as DumpOf takes it. */
  lemma DumpStep(sig: seq<byte>, i: nat)
    requires i < |sig|
    ensures i == 0 ==> DumpOf(sig[..i + 1]) == Dump([], Spaces(8) + Hex2(sig[i], false))
    ensures i > 0 && i % SIG_LINE == 0 ==>
      DumpOf(sig[..i + 1]) == Dump(DumpOf(sig[..i]).lines + [DumpOf(sig[..i]).tmp], ":\n" + Spaces(8) + Hex2(sig[i], false))
    ensures i > 0 && i % SIG_LINE != 0 ==>
      DumpOf(sig[..i + 1]) == Dump(DumpOf(sig[..i]).lines, DumpOf(sig[..i]).tmp + ":" + Hex2(sig[i], false))
  {
    assert sig[..i + 1][..i] == sig[..i];
    assert sig[..i + 1][i] == sig[i];
  }

  /** A failure to write the line flushed at byte i is a failure of the
      whole dump: every later line comes after it in the plan. */
  lemma FlushFailure(sig: seq<byte>, i: nat, head: seq<Step>, r0: nat)
    requires 1 <= i < |sig| && i % SIG_LINE == 0
    requires !Perform(head + CheckedLines(DumpOf(sig[..i + 1]).lines), r0).ok
    ensures Perform(head + CheckedLines(SigLines(sig)), r0) == Perform(head + CheckedLines(DumpOf(sig[..i + 1]).lines), r0)
  {
    DumpLinesGrow(sig, i + 1);
    LinesPrefixFailure(head, DumpOf(sig[..i + 1]).lines, SigLines(sig), r0);
  }

  lemma LinesPrefixFailure(head: seq<Step>, a: seq<string>, b: seq<string>, r0: nat)
    requires a <= b && !Perform(head + CheckedLines(a), r0).ok
    ensures Perform(head + CheckedLines(b), r0) == Perform(head + CheckedLines(a), r0)
  {
    CheckedLinesPrefix(a, b);
    var rest := CheckedLines(b[|a|..]);
    PerformAfterFailure(head + CheckedLines(a), rest, r0);
    assert head + CheckedLines(b) == head + CheckedLines(a) + rest;
  }

  /** The write of a full line at byte i; on failure the printer returns. */
  method FlushDumpLine(sink: Sink, sig: seq<byte>, i: nat, tmp: string, ghost head: seq<Step>,
                       ghost c0: seq<Chunk>, ghost r0: nat) returns (ok: bool)
    requires 1 <= i < |sig| && i % SIG_LINE == 0
    requires tmp == DumpOf(sig[..i]).tmp
    requires sink.Ran(head + CheckedLines(DumpOf(sig[..i]).lines), c0, r0)
    requires Perform(head + CheckedLines(DumpOf(sig[..i]).lines), r0).ok
    modifies sink
    ensures ok ==> sink.Ran(head + CheckedLines(DumpOf(sig[..i + 1]).lines), c0, r0)
    ensures ok ==> Perform(head + CheckedLines(DumpOf(sig[..i + 1]).lines), r0).ok
    ensures !ok ==> sink.Ran(head + CheckedLines(SigLines(sig)), c0, r0)
    ensures !ok ==> !Perform(head + CheckedLines(SigLines(sig)), r0).ok
  {
    ghost var lines := DumpOf(sig[..i]).lines;
    ok := Emit(sink, Text(tmp), true, head + CheckedLines(lines), c0, r0);
    ghost var next := DumpOf(sig[..i + 1]).lines;
    assert next == lines + [tmp] by {
      DumpStep(sig, i);
    }
    CheckedLinesSnoc(lines, tmp);
    Assoc(head, CheckedLines(lines), [Put(Text(tmp), true)]);
    if !ok {
      FlushFailure(sig, i, head, r0);
    }
  }

  /** Where the dump stands before byte i: tmp holds the line being built,
      and every finished line has been written. */
  ghost predicate DumpState(sink: Sink, sig: seq<byte>, i: nat, tmp: string,
                            head: seq<Step>, c0: seq<Chunk>, r0: nat)
    requires i <= |sig|
    reads sink
  {
    if i == 0 then tmp == Spaces(8) && sink.Ran(head, c0, r0) && Perform(head, r0).ok
    else
      && tmp == DumpOf(sig[..i]).tmp
      && sink.Ran(head + CheckedLines(DumpOf(sig[..i]).lines), c0, r0)
      && Perform(head + CheckedLines(DumpOf(sig[..i]).lines), r0).ok
  }

  /** One pass of the dump loop: byte i, after flushing tmp when it starts a
      new line. */
  method DumpByte(sink: Sink, sig: seq<byte>, i: nat, tmp: string, ghost head: seq<Step>,
                  ghost c0: seq<Chunk>, ghost r0: nat) returns (ok: bool, tmp': string)
    requires i < |sig| && DumpState(sink, sig, i, tmp, head, c0, r0)
    modifies sink
    ensures ok ==> DumpState(sink, sig, i + 1, tmp', head, c0, r0)
    ensures !ok ==> sink.Ran(head + CheckedLines(SigLines(sig)), c0, r0)
    ensures !ok ==> !Perform(head + CheckedLines(SigLines(sig)), r0).ok
  {
    var val: string;
    DumpStep(sig, i);
    ok := true;
    tmp' := tmp;
    if i == 0 {
      val := Hex2(sig[i], false);
      assert head + CheckedLines([]) == head;
    } else if i % SIG_LINE == 0 {
      ok := FlushDumpLine(sink, sig, i, tmp, head, c0, r0);
      if !ok {
        return;
      }
      tmp' := ":\n" + Spaces(8);
      val := Hex2(sig[i], false);
    } else {
      val := ":" + Hex2(sig[i], false);
    }
    tmp' := tmp' + val;
  }

  /** "Signature Algorithm: " and the algorithm's name. */
  method PrintSignatureHead(sink: Sink, doc: Doc, indent: nat) returns (ok: bool)
    modifies sink
    ensures sink.Ran(SignatureHead(doc, indent), old(sink.chunks), old(sink.room))
    ensures ok == Perform(SignatureHead(doc, indent), old(sink.room)).ok
  {
    ghost var c0, r0 := sink.chunks, sink.room;
    var s1 := Put(Text(Spaces(indent) + "Signature Algorithm: "), true);
    ok := Emit(sink, Text(Spaces(indent) + "Signature Algorithm: "), true, [], c0, r0);
    assert [] + [s1] == [s1];
    if !ok {
      PerformAfterFailure([s1], [Put(Render(SignatureAlgorithm(doc)), true)], r0);
      return;
    }
    ok := Emit(sink, Render(SignatureAlgorithm(doc)), true, [s1], c0, r0);
  }

  /** The signature printer, with the last line always flushed. */
  method SignaturePrint(sink: Sink, doc: Doc, indent: nat) returns (r: int)
    modifies sink
    ensures sink.Ran(SignaturePlan(doc, indent), old(sink.chunks), old(sink.room))
    ensures r == Code(Perform(SignaturePlan(doc, indent), old(sink.room)).ok)
  {
    ghost var c0, r0 := sink.chunks, sink.room;
    var sig := doc.signature;
    var sigSz := |sig|;
    if sigSz == 0 {
      return WOLFSSL_SUCCESS;
    }
    ghost var head := SignatureHead(doc, indent);
    var ok := PrintSignatureHead(sink, doc, indent);
    if !ok {
      PerformAfterFailure(head, CheckedLines(SigLines(sig)), r0);
      return WOLFSSL_FAILURE;
    }
    var tmp := Spaces(8);
    var i := 0;
    while i < sigSz
      invariant 0 <= i <= sigSz
      invariant DumpState(sink, sig, i, tmp, head, c0, r0)
    {
      ok, tmp := DumpByte(sink, sig, i, tmp, head, c0, r0);
      if !ok {
        return WOLFSSL_FAILURE;
      }
      i := i + 1;
    }
    assert sig[..i] == sig;
    // print out the remaining bytes: the corrected condition is i > 0
    ok := FlushLastLine(sink, sig, tmp, head, c0, r0);
    r := Code(ok);
  }

  /** The write of the buffered last line after the loop. */
  method FlushLastLine(sink: Sink, sig: seq<byte>, tmp: string, ghost head: seq<Step>,
                       ghost c0: seq<Chunk>, ghost r0: nat) returns (ok: bool)
    requires sig != [] && tmp == DumpOf(sig).tmp
    requires sink.Ran(head + CheckedLines(DumpOf(sig).lines), c0, r0)
    requires Perform(head + CheckedLines(DumpOf(sig).lines), r0).ok
    modifies sink
    ensures sink.Ran(head + CheckedLines(SigLines(sig)), c0, r0)
    ensures ok == Perform(head + CheckedLines(SigLines(sig)), r0).ok
  {
    ghost var lines := DumpOf(sig).lines;
    ok := Emit(sink, Text(tmp), true, head + CheckedLines(lines), c0, r0);
    CheckedLinesSnoc(lines, tmp);
    Assoc(head, CheckedLines(lines), [Put(Text(tmp), true)]);
  }

  // Properties of the dump

  /** "%02x" of each byte joined by ':'. */
  function ColonHex(bs: seq<byte>): string
    requires |bs| >= 1
  {
    if |bs| == 1 then Hex2(bs[0], false)
    else ColonHex(bs[..|bs| - 1]) + ":" + Hex2(bs[|bs| - 1], false)
  }

  function Min(a: int, b: int): int {
    if a <= b then a else b
  }

  /** How line k of the dump starts: eight blanks, and on every line but the
      first the ":\n" that ends the previous line. */
  function LineLead(k: nat): string {
    if k == 0 then Spaces(8) else ":\n" + Spaces(8)
  }

  /** Line k of a dump of bs: bytes 18k up to 18k + 18, or the end. */
  function DumpLine(bs: seq<byte>, k: nat): string
    requires 18 * k < |bs|
  {
    LineLead(k) + ColonHex(bs[18 * k..Min(18 * k + 18, |bs|)])
  }

  /** bs ends on line m of its dump: 18m < |bs| <= 18m + 18. */
  predicate OnLine(bs: seq<byte>, m: nat) {
    18 * m < |bs| <= 18 * m + 18
  }

  lemma InsideLine(x: int, m: nat)
    requires 18 * m < x < 18 * m + 18
    ensures x % SIG_LINE != 0
  {
  }

  lemma OnLineDivision(n: nat, m: nat)
    requires 18 * m < n <= 18 * m + 18
    ensures (n - 1) % 18 == n - 1 - 18 * m && (n - 1) / 18 == m && (n + 17) / 18 == m + 1
  {
  }

  /** The dump's state after bs, which ends on line m. */
  predicate DumpShape(bs: seq<byte>, m: nat)
    requires OnLine(bs, m)
  {
    && |DumpOf(bs).lines| == m
    && (forall k :: 0 <= k < m ==> DumpOf(bs).lines[k] == DumpLine(bs, k))
    && DumpOf(bs).tmp == DumpLine(bs, m)
  }

  /** A full line of the shorter dump is the same line of the longer one. */
  lemma KeptLine(bs: seq<byte>, k: nat)
    requires 18 * k + 18 <= |bs| - 1
    ensures DumpLine(bs[..|bs| - 1], k) == DumpLine(bs, k)
  {
    var f := bs[..|bs| - 1];
    assert Min(18 * k + 18, |f|) == 18 * k + 18 == Min(18 * k + 18, |bs|);
    assert f[18 * k..18 * k + 18] == bs[18 * k..18 * k + 18];
  }

  lemma KeptLines(bs: seq<byte>, m: nat)
    requires 18 * m + 1 <= |bs|
    ensures forall k :: 0 <= k < m ==> DumpLine(bs[..|bs| - 1], k) == DumpLine(bs, k)
  {
    forall k | 0 <= k < m ensures DumpLine(bs[..|bs| - 1], k) == DumpLine(bs, k) {
      KeptLine(bs, k);
    }
  }

  /** A byte at a multiple of 18 closes the buffered line and opens one. */
  lemma NewLineShape(bs: seq<byte>, m: nat)
    requires m >= 1 && |bs| == 18 * m + 1
    requires DumpShape(bs[..|bs| - 1], m - 1)
    ensures DumpShape(bs, m)
  {
    var f := bs[..|bs| - 1];
    DumpOfNewLine(bs, m);
    KeptLines(bs, m);
    FirstOfLine(bs, m);
    forall k | 0 <= k < m ensures DumpOf(bs).lines[k] == DumpLine(bs, k) {
      if k < m - 1 {
        assert DumpOf(bs).lines[k] == DumpOf(f).lines[k];
      } else {
        assert DumpOf(bs).lines[k] == DumpOf(f).tmp;
      }
    }
  }

  lemma DumpOfNewLine(bs: seq<byte>, m: nat)
    requires m >= 1 && |bs| == 18 * m + 1
    ensures DumpOf(bs).lines == DumpOf(bs[..|bs| - 1]).lines + [DumpOf(bs[..|bs| - 1]).tmp]
    ensures DumpOf(bs).tmp == ":\n" + Spaces(8) + Hex2(bs[|bs| - 1], false)
  {
    assert (|bs| - 1) % SIG_LINE == 0;
  }

  lemma FirstOfLine(bs: seq<byte>, m: nat)
    requires m >= 1 && |bs| == 18 * m + 1
    ensures DumpLine(bs, m) == ":\n" + Spaces(8) + Hex2(bs[|bs| - 1], false)
  {
    assert bs[18 * m..Min(18 * m + 18, |bs|)] == [bs[|bs| - 1]];
  }

  /** Any other byte extends the buffered line ... */
  lemma ColonHexSnoc(x: seq<byte>, b: byte)
    requires |x| >= 1
    ensures ColonHex(x + [b]) == ColonHex(x) + ":" + Hex2(b, false)
  {
    assert (x + [b])[..|x|] == x;
  }

  /** Slicing facts, kept apart from the dump so that they stay cheap. */
  lemma SliceSnoc(bs: seq<byte>, a: nat, n: nat)
    requires a < n <= |bs|
    ensures bs[a..n] == bs[a..n - 1] + [bs[n - 1]]
    ensures bs[..n - 1][a..n - 1] == bs[a..n - 1]
  {
  }

  lemma LastLine(bs: seq<byte>, m: nat)
    requires OnLine(bs, m)
    ensures DumpLine(bs, m) == LineLead(m) + ColonHex(bs[18 * m..|bs|])
  {
    assert Min(18 * m + 18, |bs|) == |bs|;
  }

  lemma DumpOfExtend(bs: seq<byte>, m: nat)
    requires 18 * m + 1 < |bs| <= 18 * m + 18
    ensures DumpOf(bs).tmp == DumpOf(bs[..|bs| - 1]).tmp + ":" + Hex2(bs[|bs| - 1], false)
    ensures DumpOf(bs).lines == DumpOf(bs[..|bs| - 1]).lines
  {
    InsideLine(|bs| - 1, m);
  }

  /** The last line of bs is that of bs without its last byte, plus that
      byte. */
  lemma DumpLineSnoc(bs: seq<byte>, m: nat)
    requires 18 * m + 1 < |bs| <= 18 * m + 18
    ensures DumpLine(bs, m) == DumpLine(bs[..|bs| - 1], m) + ":" + Hex2(bs[|bs| - 1], false)
  {
    assert bs == bs[..|bs| - 1] + [bs[|bs| - 1]];
    DumpLineAppend(bs[..|bs| - 1], bs[|bs| - 1], m);
  }

  lemma DumpLineAppend(f: seq<byte>, b: byte, m: nat)
    requires 18 * m < |f| < 18 * m + 18
    ensures DumpLine(f + [b], m) == DumpLine(f, m) + ":" + Hex2(b, false)
  {
    var g := f[18 * m..];
    LastLine(f, m);
    LastLine(f + [b], m);
    SliceAppend(f, b, 18 * m);
    ColonHexSnoc(g, b);
    AppendAssoc(LineLead(m), ColonHex(g), ":", Hex2(b, false));
  }

  lemma SliceAppend(f: seq<byte>, b: byte, a: nat)
    requires a <= |f|
    ensures (f + [b])[a..|f + [b]|] == f[a..] + [b]
    ensures f[a..|f|] == f[a..]
  {
  }

  lemma ExtendTmp(bs: seq<byte>, m: nat)
    requires 18 * m + 1 < |bs| <= 18 * m + 18
    requires DumpOf(bs[..|bs| - 1]).tmp == DumpLine(bs[..|bs| - 1], m)
    ensures DumpOf(bs).tmp == DumpLine(bs, m)
  {
    DumpOfExtend(bs, m);
    DumpLineSnoc(bs, m);
  }

  /** ... and leaves the finished lines alone. */
  lemma ExtendLines(bs: seq<byte>, m: nat)
    requires 18 * m + 1 < |bs| <= 18 * m + 18
    requires DumpShape(bs[..|bs| - 1], m)
    ensures |DumpOf(bs).lines| == m
    ensures forall k :: 0 <= k < m ==> DumpOf(bs).lines[k] == DumpLine(bs, k)
  {
    DumpOfExtend(bs, m);
    KeptLines(bs, m);
  }

  lemma ExtendShape(bs: seq<byte>, m: nat)
    requires 18 * m + 1 < |bs| <= 18 * m + 18
    requires DumpShape(bs[..|bs| - 1], m)
    ensures DumpShape(bs, m)
  {
    ExtendTmp(bs, m);
    ExtendLines(bs, m);
  }

  /** Dropping the last byte of a dump of n > 1 bytes on line m leaves it
      on line m - 1 when that byte opened line m, and on line m otherwise. */
  lemma ShorterLine(n: nat, m: nat)
    requires 18 * m < n <= 18 * m + 18
    ensures n == 1 ==> m == 0
    ensures n > 1 && n - 1 == 18 * m ==> m >= 1 && 18 * (m - 1) < n - 1 <= 18 * (m - 1) + 18
    ensures n > 1 && n - 1 != 18 * m ==> 18 * m + 1 < n && 18 * m < n - 1
  {
  }

  lemma {:induction false} DumpOfLines(bs: seq<byte>, m: nat)
    requires OnLine(bs, m)
    ensures DumpShape(bs, m)
    decreases |bs|, 1
  {
    var n := |bs|;
    ShorterLine(n, m);
    if n == 1 {
      FirstByteShape(bs);
    } else if n - 1 == 18 * m {
      NewLineCase(bs, m);
    } else {
      ExtendCase(bs, m);
    }
  }

  /** The byte that opens line m: the shorter dump ends on line m - 1. */
  lemma {:induction false} NewLineCase(bs: seq<byte>, m: nat)
    requires m >= 1 && |bs| == 18 * m + 1
    ensures DumpShape(bs, m)
    decreases |bs|, 0
  {
    DumpOfLines(bs[..|bs| - 1], m - 1);
    NewLineShape(bs, m);
  }

  /** Any other byte after the first: the shorter dump ends on line m too. */
  lemma {:induction false} ExtendCase(bs: seq<byte>, m: nat)
    requires 18 * m + 1 < |bs| <= 18 * m + 18
    ensures DumpShape(bs, m)
    decreases |bs|, 0
  {
    DumpOfLines(bs[..|bs| - 1], m);
    ExtendShape(bs, m);
  }

  lemma FirstByteShape(bs: seq<byte>)
    requires |bs| == 1
    ensures OnLine(bs, 0) && DumpShape(bs, 0)
  {
    assert bs[0..Min(18, 1)] == [bs[0]];
  }

  /** The corrected dump: ceil(n / 18) lines, line k holding bytes 18k up to
      18k + 18 as lower-case hex joined by ':'. */
  lemma SigLinesLayout(sig: seq<byte>)
    ensures |SigLines(sig)| == (|sig| + 17) / 18
    ensures forall k :: 0 <= k < |SigLines(sig)| ==> SigLines(sig)[k] == DumpLine(sig, k)
  {
    if sig != [] {
      var m := (|sig| - 1) / 18;
      OnLineDivision(|sig|, m);
      DumpOfLines(sig, m);
      SigLinesOfShape(sig, m);
    }
  }

  lemma SigLinesOfShape(sig: seq<byte>, m: nat)
    requires OnLine(sig, m) && DumpShape(sig, m)
    ensures |SigLines(sig)| == m + 1
    ensures forall k :: 0 <= k < m + 1 ==> SigLines(sig)[k] == DumpLine(sig, k)
  {
    var ls := DumpOf(sig).lines;
    assert SigLines(sig) == ls + [DumpOf(sig).tmp];
    forall k | 0 <= k < m + 1
      ensures SigLines(sig)[k] == DumpLine(sig, k)
    {
      if k < m {
        assert SigLines(sig)[k] == ls[k];
      }
    }
  }

  /** Every line fits tmp[100] with its terminator: nothing is truncated. */
  lemma {:induction false} ColonHexLength(bs: seq<byte>)
    requires |bs| >= 1
    ensures |ColonHex(bs)| == 3 * |bs| - 1
    decreases |bs|
  {
    if |bs| > 1 {
      ColonHexLength(bs[..|bs| - 1]);
    }
  }

  lemma SigLinesFitBuffer(sig: seq<byte>)
    ensures forall k :: 0 <= k < |SigLines(sig)| ==> |SigLines(sig)[k]| <= 63
  {
    SigLinesLayout(sig);
    forall k | 0 <= k < |SigLines(sig)| ensures |SigLines(sig)[k]| <= 63 {
      ColonHexLength(sig[18 * k..Min(18 * k + 18, |sig|)]);
    }
  }

  /** The characters of a dump that are not layout. */
  function Digits(s: string): string {
    if s == [] then []
    else (if s[0] == ':' || s[0] == '\n' || s[0] == ' ' then [] else [s[0]]) + Digits(s[1..])
  }

  lemma {:induction false} DigitsAppend(a: string, b: string)
    ensures Digits(a + b) == Digits(a) + Digits(b)
  {
    if a == [] {
      assert a + b == b;
    } else {
      assert (a + b)[1..] == a[1..] + b;
      DigitsAppend(a[1..], b);
    }
  }

  lemma DigitsOfHex2(b: byte)
    ensures Digits(Hex2(b, false)) == Hex2(b, false)
  {
    var h := Hex2(b, false);
    HexDigitIsDigit(b / 16);
    HexDigitIsDigit(b % 16);
    assert h[1..] == [h[1]] && h[1..][1..] == [];
    assert Digits(h[1..]) == [h[1]] + Digits([]);
    assert Digits(h) == [h[0]] + Digits(h[1..]);
  }

  lemma HexDigitIsDigit(v: nat)
    requires v < 16
    ensures HexDigit(v, false) != ':' && HexDigit(v, false) != '\n' && HexDigit(v, false) != ' '
  {
  }

  lemma {:induction false} DigitsOfSpaces(n: nat)
    ensures Digits(Spaces(n)) == []
  {
    if n > 0 {
      assert Spaces(n)[1..] == Spaces(n - 1);
      DigitsOfSpaces(n - 1);
    }
  }

  lemma DigitsOfLayout()
    ensures Digits(":") == [] && Digits(":\n" + Spaces(8)) == []
  {
    DigitsAppend(":\n", Spaces(8));
    DigitsOfSpaces(8);
    assert ":\n"[1..] == "\n";
  }

  /** The lines joined. */
  function Concat(ls: seq<string>): string {
    if ls == [] then [] else Concat(ls[..|ls| - 1]) + ls[|ls| - 1]
  }

  lemma ConcatSnoc(ls: seq<string>, l: string)
    ensures Concat(ls + [l]) == Concat(ls) + l
  {
    assert (ls + [l])[..|ls|] == ls;
  }

  lemma HexBytesSnoc(bs: seq<byte>, b: byte)
    ensures HexBytes(bs + [b], false) == HexBytes(bs, false) + Hex2(b, false)
    decreases |bs|
  {
    if bs == [] {
      assert HexBytes([b], false) == Hex2(b, false) + HexBytes([], false);
    } else {
      assert (bs + [b])[1..] == bs[1..] + [b];
      HexBytesSnoc(bs[1..], b);
    }
  }

  /** Starting a new line adds no digits but those of the byte. */
  lemma DigitsNewLine(lines: seq<string>, t: string, h: string)
    ensures Digits(Concat(lines + [t]) + (":\n" + Spaces(8) + h)) == Digits(Concat(lines) + t) + Digits(h)
  {
    ConcatSnoc(lines, t);
    DigitsAppend(Concat(lines) + t, ":\n" + Spaces(8) + h);
    DigitsAppend(":\n" + Spaces(8), h);
    DigitsOfLayout();
  }

  /** Extending a line adds no digits but those of the byte. */
  lemma DigitsExtend(lines: seq<string>, t: string, h: string)
    ensures Digits(Concat(lines) + (t + ":" + h)) == Digits(Concat(lines) + t) + Digits(h)
  {
    AppendAssoc(Concat(lines), t, ":", h);
    Assoc(Concat(lines) + t, ":", h);
    DigitsAppend(Concat(lines) + t, ":" + h);
    DigitsAppend(":", h);
    DigitsOfLayout();
  }

  lemma DumpDigitsFirst(bs: seq<byte>)
    requires |bs| == 1
    ensures Digits(Concat(DumpOf(bs).lines) + DumpOf(bs).tmp) == HexBytes(bs, false)
  {
    var h := Hex2(bs[0], false);
    DigitsOfHex2(bs[0]);
    DigitsAppend(Spaces(8), h);
    DigitsOfSpaces(8);
    assert DumpOf(bs) == Dump([], Spaces(8) + h);
    assert Concat([]) + (Spaces(8) + h) == Spaces(8) + h;
    assert bs[1..] == [];
    assert HexBytes(bs, false) == h + HexBytes([], false);
  }

  lemma {:induction false} DumpDigits(bs: seq<byte>)
    requires |bs| >= 1
    ensures Digits(Concat(DumpOf(bs).lines) + DumpOf(bs).tmp) == HexBytes(bs, false)
    decreases |bs|
  {
    if |bs| == 1 {
      DumpDigitsFirst(bs);
    } else {
      var f := bs[..|bs| - 1];
      var b := bs[|bs| - 1];
      DumpDigits(f);
      DigitsOfHex2(b);
      assert f + [b] == bs;
      HexBytesSnoc(f, b);
      if (|bs| - 1) % SIG_LINE == 0 {
        DigitsNewLine(DumpOf(f).lines, DumpOf(f).tmp, Hex2(b, false));
      } else {
        DigitsExtend(DumpOf(f).lines, DumpOf(f).tmp, Hex2(b, false));
      }
    }
  }

  /** Stripped of blanks, colons and line breaks, the corrected dump is the
      lower-case hex of every signature byte, in order. */
  lemma SigLinesContent(sig: seq<byte>)
    ensures Digits(Concat(SigLines(sig))) == HexBytes(sig, false)
  {
    if sig != [] {
      DumpDigits(sig);
      ConcatSnoc(DumpOf(sig).lines, DumpOf(sig).tmp);
    }
  }

  /** As written, a dump of 18k + 1 bytes loses its last line, so the last
      byte never appears. */
  lemma AsWrittenDropsLastLine(sig: seq<byte>)
    requires |sig| >= 1 && (|sig| - 1) % 18 == 0
    ensures AsWrittenSigLines(sig) == SigLines(sig)[..|SigLines(sig)| - 1]
    ensures SigLines(sig)[|SigLines(sig)| - 1] == LineLead((|sig| - 1) / 18) + Hex2(sig[|sig| - 1], false)
  {
    var m := (|sig| - 1) / 18;
    OneAfterLines(|sig|);
    DropsLine(sig, m);
  }

  lemma OneAfterLines(n: nat)
    requires n >= 1 && (n - 1) % 18 == 0
    ensures n == 18 * ((n - 1) / 18) + 1
  {
  }

  /** The dump of 18m + 1 bytes, where the last byte is alone on line m. */
  lemma DropsLine(sig: seq<byte>, m: nat)
    requires |sig| == 18 * m + 1 && (|sig| - 1) % 18 == 0
    ensures AsWrittenSigLines(sig) == SigLines(sig)[..|SigLines(sig)| - 1]
    ensures SigLines(sig)[|SigLines(sig)| - 1] == LineLead(m) + Hex2(sig[|sig| - 1], false)
  {
    DumpOfLines(sig, m);
    assert sig[18 * m..Min(18 * m + 18, |sig|)] == [sig[|sig| - 1]];
  }

  /** A one-byte signature: the code prints its heading but no byte of it. */
  lemma AsWrittenOneByteSignature()
    ensures AsWrittenSigLines([0xab]) == []
    ensures SigLines([0xab]) == [Spaces(8) + "ab"]
  {
    assert Hex2(0xab, false) == "ab";
  }

  /** With any other length the code writes exactly the corrected lines. */
  lemma AsWrittenElsewhereAgrees(sig: seq<byte>)
    requires sig == [] || (|sig| - 1) % 18 != 0
    ensures AsWrittenSigLines(sig) == SigLines(sig)
  {
  }

  // ---------------------------------------------------------------------
  // The whole request (wolfSSL_X509_REQ_print)
  // ---------------------------------------------------------------------

  /** The attributes printer is a stub that writes nothing and succeeds. */
  function AttributesPlan(doc: Doc, indent: nat): seq<Step> {
    []
  }

  /** The parts of the print, in order. */
  function ReqParts(doc: Doc): seq<seq<Step>> {
    [[Put(Text("Certificate Request:\n"), true)], [Put(Text("    Data:\n"), true)],
     VersionPlan(doc, 8), SerialPlan(doc, 8), NamePlan(doc.subject, "Subject: ", 8),
     PubKeyPlan(doc, 8), ExtensionsPlan(doc, 4), AttributesPlan(doc, 4),
     SignaturePlan(doc, 4), [Put(Text("\n"), true)]]
  }

  function ReqPrefix(doc: Doc, k: nat): seq<Step>
    requires k <= 10
  {
    if k == 0 then [] else ReqPrefix(doc, k - 1) + ReqParts(doc)[k - 1]
  }

  function ReqPlan(doc: Doc): seq<Step> {
    ReqPrefix(doc, 10)
  }

  lemma {:induction false} ReqPrefixSplit(doc: Doc, k: nat)
    requires k <= 10
    ensures ReqPlan(doc) == ReqPrefix(doc, k) + ReqSuffix(doc, k)
    decreases 10 - k
  {
    if k < 10 {
      ReqPrefixSplit(doc, k + 1);
    }
  }

  function ReqSuffix(doc: Doc, k: nat): seq<Step>
    requires k <= 10
    decreases 10 - k
  {
    if k == 10 then [] else ReqParts(doc)[k] + ReqSuffix(doc, k + 1)
  }

  lemma ReqRunPart(doc: Doc, k: nat, c0: seq<Chunk>, r0: nat,
                c1: seq<Chunk>, r1: nat, c2: seq<Chunk>, r2: nat)
    requires k < 10
    requires Perform(ReqPrefix(doc, k), r0).ok
    requires c1 == c0 + Perform(ReqPrefix(doc, k), r0).written
    requires r1 == Perform(ReqPrefix(doc, k), r0).left
    requires c2 == c1 + Perform(ReqParts(doc)[k], r1).written && r2 == Perform(ReqParts(doc)[k], r1).left
    ensures c2 == c0 + Perform(ReqPrefix(doc, k + 1), r0).written
    ensures r2 == Perform(ReqPrefix(doc, k + 1), r0).left
    ensures Perform(ReqPrefix(doc, k + 1), r0).ok == Perform(ReqParts(doc)[k], r1).ok
    ensures !Perform(ReqParts(doc)[k], r1).ok ==> Perform(ReqPlan(doc), r0) == Perform(ReqPrefix(doc, k + 1), r0)
  {
    Compose(ReqPrefix(doc, k), ReqParts(doc)[k], c0, r0, c1, r1, c2, r2);
    ReqPrefixSplit(doc, k + 1);
    if !Perform(ReqParts(doc)[k], r1).ok {
      PerformAfterFailure(ReqPrefix(doc, k + 1), ReqSuffix(doc, k + 1), r0);
    }
  }

  /** Prints part k of the request, after parts 0 to k - 1 have succeeded. */
  method PrintPart(sink: Sink, doc: Doc, k: nat, ghost c0: seq<Chunk>, ghost r0: nat) returns (r: int)
    requires k < 10
    requires sink.Ran(ReqPrefix(doc, k), c0, r0)
    requires Perform(ReqPrefix(doc, k), r0).ok
    modifies sink
    ensures sink.Ran(ReqPrefix(doc, k + 1), c0, r0)
    ensures r == Code(Perform(ReqPrefix(doc, k + 1), r0).ok)
    ensures r != WOLFSSL_SUCCESS ==> Perform(ReqPlan(doc), r0) == Perform(ReqPrefix(doc, k + 1), r0)
  {
    ghost var parts := ReqParts(doc);
    ghost var c1, r1 := sink.chunks, sink.room;
    if k == 0 {
      r := EmitLine(sink, "Certificate Request:\n");
    } else if k == 1 {
      r := EmitLine(sink, "    Data:\n");
    } else if k == 2 {
      r := VersionPrint(sink, doc, 8);
    } else if k == 3 {
      r := SerialPrint(sink, doc, 8);
    } else if k == 4 {
      r := NamePrint(sink, doc.subject, "Subject: ", 8);
    } else if k == 5 {
      r := PubKeyPrint(sink, doc, 8);
    } else if k == 6 {
      r := ExtensionsPrint(sink, doc, 4);
    } else if k == 7 {
      // the attributes printer is a stub
      r := WOLFSSL_SUCCESS;
    } else if k == 8 {
      r := SignaturePrint(sink, doc, 4);
    } else {
      r := EmitLine(sink, "\n");
    }
    ReqRunPart(doc, k, c0, r0, c1, r1, sink.chunks, sink.room);
  }

  /** wolfSSL_X509_REQ_print: each part in turn; the first part that fails
      ends the print with WOLFSSL_FAILURE. */
  method ReqPrint(sink: Sink, doc: Doc) returns (r: int)
    modifies sink
    ensures sink.Ran(ReqPlan(doc), old(sink.chunks), old(sink.room))
    ensures r == Code(Perform(ReqPlan(doc), old(sink.room)).ok)
  {
    ghost var c0, r0 := sink.chunks, sink.room;
    r := PrintPart(sink, doc, 0, c0, r0);   // "Certificate Request:"
    if r != WOLFSSL_SUCCESS {
      return WOLFSSL_FAILURE;
    }
    r := PrintPart(sink, doc, 1, c0, r0);   // "    Data:"
    if r != WOLFSSL_SUCCESS {
      return WOLFSSL_FAILURE;
    }
    r := PrintPart(sink, doc, 2, c0, r0);   // version
    if r != WOLFSSL_SUCCESS {
      return WOLFSSL_FAILURE;
    }
    r := PrintPart(sink, doc, 3, c0, r0);   // serial number
    if r != WOLFSSL_SUCCESS {
      return WOLFSSL_FAILURE;
    }
    r := PrintPart(sink, doc, 4, c0, r0);   // subject
    if r != WOLFSSL_SUCCESS {
      return WOLFSSL_FAILURE;
    }
    r := PrintPart(sink, doc, 5, c0, r0);   // public key
    if r != WOLFSSL_SUCCESS {
      return WOLFSSL_FAILURE;
    }
    r := PrintPart(sink, doc, 6, c0, r0);   // extensions
    if r != WOLFSSL_SUCCESS {
      return WOLFSSL_FAILURE;
    }
    r := PrintPart(sink, doc, 7, c0, r0);   // attributes
    if r != WOLFSSL_SUCCESS {
      return WOLFSSL_FAILURE;
    }
    r := PrintPart(sink, doc, 8, c0, r0);   // signature
    if r != WOLFSSL_SUCCESS {
      return WOLFSSL_FAILURE;
    }
    r := PrintPart(sink, doc, 9, c0, r0);   // closing newline
  }
}
