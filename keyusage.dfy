/** The keyUsage extension (section 4.2.1.3 of RFC 5280) as wolfCLU reads it
    from a config value and prints it back: a 16-bit flag word with wolfSSL's
    KEYUSE_* bit assignment. */
module KeyUsage {
  import opened Common
  import opened Text
  import opened Document
  import opened Output

  const DIGITAL_SIG: bv16 := 0x0080
  const CONTENT_COMMIT: bv16 := 0x0040
  const KEY_ENCIPHER: bv16 := 0x0020
  const DATA_ENCIPHER: bv16 := 0x0010
  const KEY_AGREE: bv16 := 0x0008
  const KEY_CERT_SIGN: bv16 := 0x0004
  const CRL_SIGN: bv16 := 0x0002
  const ENCIPHER_ONLY: bv16 := 0x0001
  const DECIPHER_ONLY: bv16 := 0x8000

  /** Every bit a key-usage word can carry. */
  const ALL_USAGE: bv16 := 0x80FF

  const Masks: set<bv16> := {DIGITAL_SIG, CONTENT_COMMIT, KEY_ENCIPHER, DATA_ENCIPHER,
    KEY_AGREE, KEY_CERT_SIGN, CRL_SIGN, ENCIPHER_ONLY, DECIPHER_ONLY}

  /** The usage masks are single, distinct bits. */
  lemma MasksDisjoint(a: bv16, b: bv16)
    requires a in Masks && b in Masks
    ensures (a & b != 0) <==> a == b
  {
  }

  // ---------------------------------------------------------------------
  // Parsing (wolfCLU_parseKeyUsage)
  // ---------------------------------------------------------------------

  /** The flags one word of the value sets: one test per name, in the
      parser's order; nonRepudiation and contentCommitment name the same bit. */
  function WordFlags(word: string): bv16 {
    (if IsPrefix(word, "digitalSignature") then DIGITAL_SIG else 0)
    | (if IsPrefix(word, "nonRepudiation") || IsPrefix(word, "contentCommitment")
       then CONTENT_COMMIT else 0)
    | (if IsPrefix(word, "keyEncipherment") then KEY_ENCIPHER else 0)
    | (if IsPrefix(word, "dataEncipherment") then DATA_ENCIPHER else 0)
    | (if IsPrefix(word, "keyAgreement") then KEY_AGREE else 0)
    | (if IsPrefix(word, "keyCertSign") then KEY_CERT_SIGN else 0)
    | (if IsPrefix(word, "cRLSign") then CRL_SIGN else 0)
    | (if IsPrefix(word, "encipherOnly") then ENCIPHER_ONLY else 0)
    | (if IsPrefix(word, "decipherOnly") then DECIPHER_ONLY else 0)
  }

  /** word starts one of the names of usage bit m. */
  predicate NamesBit(word: string, m: bv16) {
    || (m == DIGITAL_SIG && IsPrefix(word, "digitalSignature"))
    || (m == CONTENT_COMMIT && (IsPrefix(word, "nonRepudiation") || IsPrefix(word, "contentCommitment")))
    || (m == KEY_ENCIPHER && IsPrefix(word, "keyEncipherment"))
    || (m == DATA_ENCIPHER && IsPrefix(word, "dataEncipherment"))
    || (m == KEY_AGREE && IsPrefix(word, "keyAgreement"))
    || (m == KEY_CERT_SIGN && IsPrefix(word, "keyCertSign"))
    || (m == CRL_SIGN && IsPrefix(word, "cRLSign"))
    || (m == ENCIPHER_ONLY && IsPrefix(word, "encipherOnly"))
    || (m == DECIPHER_ONLY && IsPrefix(word, "decipherOnly"))
  }

  /** One word sets usage bit m exactly when it starts a name of m. */
  lemma WordFlagsBit(word: string, m: bv16)
    requires m in Masks
    ensures (WordFlags(word) & m != 0) <==> NamesBit(word, m)
  {
  }

  /** The flag word a token list yields: each token loses its leading blanks,
      then its flags are OR'ed in. */
  function TokenFlags(ts: seq<string>): bv16 {
    if ts == [] then 0
    else TokenFlags(ts[..|ts| - 1]) | WordFlags(TrimLeadingSpaces(ts[|ts| - 1]))
  }

  lemma TokenFlagsSnoc(ts: seq<string>, i: nat)
    requires i < |ts|
    ensures TokenFlags(ts[..i + 1]) == TokenFlags(ts[..i]) | WordFlags(TrimLeadingSpaces(ts[i]))
  {
    assert ts[..i + 1][..i] == ts[..i];
  }

  /** `while (*word == ' ') word++;` */
  method SkipBlanks(s: string) returns (word: string)
    ensures word == TrimLeadingSpaces(s)
  {
    word := s;
    while |word| > 0 && word[0] == ' '
      invariant TrimLeadingSpaces(word) == TrimLeadingSpaces(s)
      decreases |word|
    {
      word := word[1..];
    }
  }

  /** wolfCLU_parseKeyUsage: the keyUsage extension built from a config value. */
  method ParseKeyUsage(str: string, crit: bool) returns (ext: Extension)
    ensures ext == Extension(NID_key_usage, crit, KeyUsage(TokenFlags(Tokens(str, ','))))
  {
    var toks := Tokens(str, ',');
    var keyUseFlag: bv16 := 0;
    var i := 0;
    while i < |toks|
      invariant 0 <= i <= |toks|
      invariant keyUseFlag == TokenFlags(toks[..i])
    {
      var word := SkipBlanks(toks[i]);
      TokenFlagsSnoc(toks, i);
      keyUseFlag := keyUseFlag | WordFlags(word);
      i := i + 1;
    }
    assert toks[..|toks|] == toks;
    ext := Extension(NID_key_usage, crit, KeyUsage(keyUseFlag));
  }

  lemma OrBit(x: bv16, y: bv16, m: bv16)
    ensures ((x | y) & m != 0) <==> (x & m != 0 || y & m != 0)
  {
  }

  /** Some token, without its leading blanks, starts a name of bit m. */
  predicate TokenNames(ts: seq<string>, m: bv16) {
    exists i :: 0 <= i < |ts| && NamesBit(TrimLeadingSpaces(ts[i]), m)
  }

  lemma {:induction false} TokenFlagsBit(ts: seq<string>, m: bv16)
    requires m in Masks
    ensures (TokenFlags(ts) & m != 0) <==> TokenNames(ts, m)
  {
    if ts != [] {
      var init := ts[..|ts| - 1];
      var last := TrimLeadingSpaces(ts[|ts| - 1]);
      TokenFlagsBit(init, m);
      WordFlagsBit(last, m);
      OrBit(TokenFlags(init), WordFlags(last), m);
      if TokenNames(init, m) {
        var i :| 0 <= i < |init| && NamesBit(TrimLeadingSpaces(init[i]), m);
        assert init[i] == ts[i];
      }
      if TokenNames(ts, m) {
        var i :| 0 <= i < |ts| && NamesBit(TrimLeadingSpaces(ts[i]), m);
        if i < |ts| - 1 {
          assert init[i] == ts[i];
        }
      }
    }
  }

  /** A usage bit is set by the parsed value exactly when some comma-separated
      word of it, leading blanks removed, is a prefix of a name of that bit. */
  lemma ParsedBitIff(str: string, m: bv16)
    requires m in Masks
    ensures (TokenFlags(Tokens(str, ',')) & m != 0) <==> TokenNames(Tokens(str, ','), m)
  {
    TokenFlagsBit(Tokens(str, ','), m);
  }

  /** Prefix matching at work: "key" sets the three flags whose names begin
      with it, and one of them alone is not enough to match. */
  lemma KeyWordSetsThree()
    ensures WordFlags("key") == KEY_ENCIPHER | KEY_AGREE | KEY_CERT_SIGN
  {
    NotPrefixAt("key", "digitalSignature", 0);
    NotPrefixAt("key", "nonRepudiation", 0);
    NotPrefixAt("key", "contentCommitment", 0);
    NotPrefixAt("key", "dataEncipherment", 0);
    NotPrefixAt("key", "cRLSign", 0);
    NotPrefixAt("key", "encipherOnly", 0);
    NotPrefixAt("key", "decipherOnly", 0);
    assert IsPrefix("key", "keyEncipherment") by { assert "keyEncipherment"[..3] == "key"; }
    assert IsPrefix("key", "keyAgreement") by { assert "keyAgreement"[..3] == "key"; }
    assert IsPrefix("key", "keyCertSign") by { assert "keyCertSign"[..3] == "key"; }
  }

  /** A word made only of blanks shrinks to the empty word, which is a prefix
      of every name: it sets every flag. */
  lemma BlankWordSetsAll(n: nat)
    ensures WordFlags(TrimLeadingSpaces(Spaces(n))) == ALL_USAGE
  {
    assert TrimLeadingSpaces(Spaces(n)) == [] by {
      BlanksTrimToEmpty(n);
    }
  }

  lemma {:induction false} BlanksTrimToEmpty(n: nat)
    ensures TrimLeadingSpaces(Spaces(n)) == []
  {
    if n > 0 {
      assert Spaces(n)[1..] == Spaces(n - 1);
      BlanksTrimToEmpty(n - 1);
    }
  }

  /** Both spellings of the content-commitment bit parse alike. */
  lemma ContentCommitAliases()
    ensures WordFlags("nonRepudiation") == CONTENT_COMMIT
    ensures WordFlags("contentCommitment") == CONTENT_COMMIT
  {
    NonRepudiationWord();
    PrefixSelf("contentCommitment");
    NotPrefixAt("contentCommitment", "digitalSignature", 0);
    NotPrefixAt("contentCommitment", "keyEncipherment", 0);
    NotPrefixAt("contentCommitment", "dataEncipherment", 0);
    NotPrefixAt("contentCommitment", "keyAgreement", 0);
    NotPrefixAt("contentCommitment", "keyCertSign", 0);
    NotPrefixAt("contentCommitment", "cRLSign", 1);
    NotPrefixAt("contentCommitment", "encipherOnly", 0);
    NotPrefixAt("contentCommitment", "decipherOnly", 0);
  }

  // ---------------------------------------------------------------------
  // Printing (_keyUsagePrint)
  // ---------------------------------------------------------------------

  function Pick(w: bv16, m: bv16, name: string): seq<string> {
    if w & m != 0 then [name] else []
  }

  /** The names printed for a flag word, in the printer's order. */
  function PrintNames(w: bv16): seq<string> {
    Pick(w, KEY_ENCIPHER, "keyEncipherment") + Pick(w, DIGITAL_SIG, "digitalSignature")
    + Pick(w, CONTENT_COMMIT, "nonRepudiation") + Pick(w, DATA_ENCIPHER, "dataEncipherment")
    + Pick(w, KEY_AGREE, "keyAgreement") + Pick(w, KEY_CERT_SIGN, "keyCertSign")
    + Pick(w, CRL_SIGN, "cRLSign") + Pick(w, ENCIPHER_ONLY, "encipherOnly")
    + Pick(w, DECIPHER_ONLY, "decipherOnly")
  }

  /** The low 16 bits of the int handed to the printer, which are the only
      ones the KEYUSE_* masks test. */
  function Word(keyUsage: int): bv16 {
    (keyUsage % 0x1_0000) as bv16
  }

  /** One unchecked write per name, each on its own indented line. */
  function NameLines(names: seq<string>, indent: nat): seq<Step> {
    if names == [] then []
    else [Put(Text(Spaces(indent) + names[0] + "\n"), false)] + NameLines(names[1..], indent)
  }

  /** What the key-usage printer writes: nothing for a value <= 0. */
  function KeyUsagePlan(keyUsage: int, indent: nat): seq<Step> {
    if keyUsage > 0 then NameLines(PrintNames(Word(keyUsage)), indent) else []
  }

  lemma {:induction false} NameLinesAppend(a: seq<string>, b: seq<string>, indent: nat)
    ensures NameLines(a + b, indent) == NameLines(a, indent) + NameLines(b, indent)
  {
    if a == [] {
      assert a + b == b;
    } else {
      assert (a + b)[1..] == a[1..] + b;
      NameLinesAppend(a[1..], b, indent);
    }
  }

  /** The name lines are unchecked writes: printing them never fails. */
  lemma {:induction false} NameLinesOk(names: seq<string>, indent: nat, room: nat)
    ensures Perform(NameLines(names, indent), room).ok
  {
    if names != [] {
      NameLinesOk(names[1..], indent, if room > 0 then room - 1 else 0);
    }
  }

  /** Prints one name when its bit is set, after the lines for `done`. */
  method PrintIfSet(sink: Sink, w: bv16, m: bv16, name: string, indent: nat,
                    ghost done: seq<string>, ghost c0: seq<Chunk>, ghost r0: nat)
    requires sink.Ran(NameLines(done, indent), c0, r0)
    modifies sink
    ensures sink.Ran(NameLines(done + Pick(w, m, name), indent), c0, r0)
  {
    NameLinesAppend(done, Pick(w, m, name), indent);
    NameLinesOk(done, indent, r0);
    if w & m != 0 {
      var _ := Emit(sink, Text(Spaces(indent) + name + "\n"), false, NameLines(done, indent), c0, r0);
      assert NameLines(Pick(w, m, name), indent) == [Put(Text(Spaces(indent) + name + "\n"), false)];
    } else {
      assert done + Pick(w, m, name) == done;
    }
  }

  /** _keyUsagePrint: one line per set bit, write results ignored, always
      WOLFSSL_SUCCESS. */
  method KeyUsagePrint(sink: Sink, keyUsage: int, indent: nat) returns (r: int)
    modifies sink
    ensures sink.Ran(KeyUsagePlan(keyUsage, indent), old(sink.chunks), old(sink.room))
    ensures r == WOLFSSL_SUCCESS
  {
    ghost var c0, r0 := sink.chunks, sink.room;
    if keyUsage > 0 {
      var w := Word(keyUsage);
      ghost var done: seq<string> := [];
      PrintIfSet(sink, w, KEY_ENCIPHER, "keyEncipherment", indent, done, c0, r0);
      assert done + Pick(w, KEY_ENCIPHER, "keyEncipherment") == Pick(w, KEY_ENCIPHER, "keyEncipherment");
      done := Pick(w, KEY_ENCIPHER, "keyEncipherment");
      PrintIfSet(sink, w, DIGITAL_SIG, "digitalSignature", indent, done, c0, r0);
      done := done + Pick(w, DIGITAL_SIG, "digitalSignature");
      PrintIfSet(sink, w, CONTENT_COMMIT, "nonRepudiation", indent, done, c0, r0);
      done := done + Pick(w, CONTENT_COMMIT, "nonRepudiation");
      PrintIfSet(sink, w, DATA_ENCIPHER, "dataEncipherment", indent, done, c0, r0);
      done := done + Pick(w, DATA_ENCIPHER, "dataEncipherment");
      PrintIfSet(sink, w, KEY_AGREE, "keyAgreement", indent, done, c0, r0);
      done := done + Pick(w, KEY_AGREE, "keyAgreement");
      PrintIfSet(sink, w, KEY_CERT_SIGN, "keyCertSign", indent, done, c0, r0);
      done := done + Pick(w, KEY_CERT_SIGN, "keyCertSign");
      PrintIfSet(sink, w, CRL_SIGN, "cRLSign", indent, done, c0, r0);
      done := done + Pick(w, CRL_SIGN, "cRLSign");
      PrintIfSet(sink, w, ENCIPHER_ONLY, "encipherOnly", indent, done, c0, r0);
      done := done + Pick(w, ENCIPHER_ONLY, "encipherOnly");
      PrintIfSet(sink, w, DECIPHER_ONLY, "decipherOnly", indent, done, c0, r0);
      done := done + Pick(w, DECIPHER_ONLY, "decipherOnly");
      assert done == PrintNames(w);
    }
    r := WOLFSSL_SUCCESS;
  }

  // ---------------------------------------------------------------------
  // Printing and parsing agree
  // ---------------------------------------------------------------------

  lemma {:induction false} TokenFlagsAppend(a: seq<string>, b: seq<string>)
    ensures TokenFlags(a + b) == TokenFlags(a) | TokenFlags(b)
    decreases |b|
  {
    if b == [] {
      assert a + b == a;
    } else {
      var b0 := b[..|b| - 1];
      assert (a + b)[..|a + b| - 1] == a + b0;
      TokenFlagsAppend(a, b0);
    }
  }

  lemma SingleBit(w: bv16, m: bv16)
    requires m in Masks
    ensures (if w & m != 0 then m else 0) == w & m
  {
  }

  lemma PickFlags(w: bv16, m: bv16, name: string)
    requires m in Masks
    requires WordFlags(name) == m && TrimLeadingSpaces(name) == name
    ensures TokenFlags(Pick(w, m, name)) == w & m
  {
    SingleBit(w, m);
    PickTokenFlags(w, m, name);
  }

  lemma PickTokenFlags(w: bv16, m: bv16, name: string)
    requires WordFlags(name) == m && TrimLeadingSpaces(name) == name
    ensures TokenFlags(Pick(w, m, name)) == if w & m != 0 then m else 0
  {
    if w & m != 0 {
      var ts := [name];
      assert ts[..|ts| - 1] == [] && ts[|ts| - 1] == name;
      assert TokenFlags(ts) == 0 | m;
    }
  }

  // Each printed name, read back by the parser, sets exactly its own bit.

  lemma ReadsKeyEncipherment(w: bv16)
    ensures TokenFlags(Pick(w, KEY_ENCIPHER, "keyEncipherment")) == w & KEY_ENCIPHER
  {
    KeyEnciphermentWord();
    PickFlags(w, KEY_ENCIPHER, "keyEncipherment");
  }

  lemma KeyEnciphermentWord()
    ensures WordFlags("keyEncipherment") == KEY_ENCIPHER
  {
    PrefixSelf("keyEncipherment");
    NotPrefixAt("keyEncipherment", "digitalSignature", 0);
    NotPrefixAt("keyEncipherment", "nonRepudiation", 0);
    NotPrefixAt("keyEncipherment", "dataEncipherment", 0);
    NotPrefixAt("keyEncipherment", "keyAgreement", 3);
    NotPrefixAt("keyEncipherment", "keyCertSign", 3);
    NotPrefixAt("keyEncipherment", "cRLSign", 0);
    NotPrefixAt("keyEncipherment", "encipherOnly", 0);
    NotPrefixAt("keyEncipherment", "decipherOnly", 0);
    NotPrefixAt("keyEncipherment", "contentCommitment", 0);
  }

  lemma ReadsDigitalSignature(w: bv16)
    ensures TokenFlags(Pick(w, DIGITAL_SIG, "digitalSignature")) == w & DIGITAL_SIG
  {
    DigitalSignatureWord();
    PickFlags(w, DIGITAL_SIG, "digitalSignature");
  }

  lemma DigitalSignatureWord()
    ensures WordFlags("digitalSignature") == DIGITAL_SIG
  {
    PrefixSelf("digitalSignature");
    NotPrefixAt("digitalSignature", "nonRepudiation", 0);
    NotPrefixAt("digitalSignature", "keyEncipherment", 0);
    NotPrefixAt("digitalSignature", "dataEncipherment", 1);
    NotPrefixAt("digitalSignature", "keyAgreement", 0);
    NotPrefixAt("digitalSignature", "keyCertSign", 0);
    NotPrefixAt("digitalSignature", "cRLSign", 0);
    NotPrefixAt("digitalSignature", "encipherOnly", 0);
    NotPrefixAt("digitalSignature", "decipherOnly", 1);
    NotPrefixAt("digitalSignature", "contentCommitment", 0);
  }

  lemma ReadsNonRepudiation(w: bv16)
    ensures TokenFlags(Pick(w, CONTENT_COMMIT, "nonRepudiation")) == w & CONTENT_COMMIT
  {
    NonRepudiationWord();
    PickFlags(w, CONTENT_COMMIT, "nonRepudiation");
  }

  lemma NonRepudiationWord()
    ensures WordFlags("nonRepudiation") == CONTENT_COMMIT
  {
    PrefixSelf("nonRepudiation");
    NotPrefixAt("nonRepudiation", "digitalSignature", 0);
    NotPrefixAt("nonRepudiation", "keyEncipherment", 0);
    NotPrefixAt("nonRepudiation", "dataEncipherment", 0);
    NotPrefixAt("nonRepudiation", "keyAgreement", 0);
    NotPrefixAt("nonRepudiation", "keyCertSign", 0);
    NotPrefixAt("nonRepudiation", "cRLSign", 0);
    NotPrefixAt("nonRepudiation", "encipherOnly", 0);
    NotPrefixAt("nonRepudiation", "decipherOnly", 0);
    NotPrefixAt("nonRepudiation", "contentCommitment", 0);
  }

  lemma ReadsDataEncipherment(w: bv16)
    ensures TokenFlags(Pick(w, DATA_ENCIPHER, "dataEncipherment")) == w & DATA_ENCIPHER
  {
    DataEnciphermentWord();
    PickFlags(w, DATA_ENCIPHER, "dataEncipherment");
  }

  lemma DataEnciphermentWord()
    ensures WordFlags("dataEncipherment") == DATA_ENCIPHER
  {
    PrefixSelf("dataEncipherment");
    NotPrefixAt("dataEncipherment", "digitalSignature", 1);
    NotPrefixAt("dataEncipherment", "nonRepudiation", 0);
    NotPrefixAt("dataEncipherment", "keyEncipherment", 0);
    NotPrefixAt("dataEncipherment", "keyAgreement", 0);
    NotPrefixAt("dataEncipherment", "keyCertSign", 0);
    NotPrefixAt("dataEncipherment", "cRLSign", 0);
    NotPrefixAt("dataEncipherment", "encipherOnly", 0);
    NotPrefixAt("dataEncipherment", "decipherOnly", 1);
    NotPrefixAt("dataEncipherment", "contentCommitment", 0);
  }

  lemma ReadsKeyAgreement(w: bv16)
    ensures TokenFlags(Pick(w, KEY_AGREE, "keyAgreement")) == w & KEY_AGREE
  {
    KeyAgreementWord();
    PickFlags(w, KEY_AGREE, "keyAgreement");
  }

  lemma KeyAgreementWord()
    ensures WordFlags("keyAgreement") == KEY_AGREE
  {
    PrefixSelf("keyAgreement");
    NotPrefixAt("keyAgreement", "digitalSignature", 0);
    NotPrefixAt("keyAgreement", "nonRepudiation", 0);
    NotPrefixAt("keyAgreement", "keyEncipherment", 3);
    NotPrefixAt("keyAgreement", "dataEncipherment", 0);
    NotPrefixAt("keyAgreement", "keyCertSign", 3);
    NotPrefixAt("keyAgreement", "cRLSign", 0);
    NotPrefixAt("keyAgreement", "encipherOnly", 0);
    NotPrefixAt("keyAgreement", "decipherOnly", 0);
    NotPrefixAt("keyAgreement", "contentCommitment", 0);
  }

  lemma ReadsKeyCertSign(w: bv16)
    ensures TokenFlags(Pick(w, KEY_CERT_SIGN, "keyCertSign")) == w & KEY_CERT_SIGN
  {
    KeyCertSignWord();
    PickFlags(w, KEY_CERT_SIGN, "keyCertSign");
  }

  lemma KeyCertSignWord()
    ensures WordFlags("keyCertSign") == KEY_CERT_SIGN
  {
    PrefixSelf("keyCertSign");
    NotPrefixAt("keyCertSign", "digitalSignature", 0);
    NotPrefixAt("keyCertSign", "nonRepudiation", 0);
    NotPrefixAt("keyCertSign", "keyEncipherment", 3);
    NotPrefixAt("keyCertSign", "dataEncipherment", 0);
    NotPrefixAt("keyCertSign", "keyAgreement", 3);
    NotPrefixAt("keyCertSign", "cRLSign", 0);
    NotPrefixAt("keyCertSign", "encipherOnly", 0);
    NotPrefixAt("keyCertSign", "decipherOnly", 0);
    NotPrefixAt("keyCertSign", "contentCommitment", 0);
  }

  lemma ReadsCRLSign(w: bv16)
    ensures TokenFlags(Pick(w, CRL_SIGN, "cRLSign")) == w & CRL_SIGN
  {
    CRLSignWord();
    PickFlags(w, CRL_SIGN, "cRLSign");
  }

  lemma CRLSignWord()
    ensures WordFlags("cRLSign") == CRL_SIGN
  {
    PrefixSelf("cRLSign");
    NotPrefixAt("cRLSign", "digitalSignature", 0);
    NotPrefixAt("cRLSign", "nonRepudiation", 0);
    NotPrefixAt("cRLSign", "keyEncipherment", 0);
    NotPrefixAt("cRLSign", "dataEncipherment", 0);
    NotPrefixAt("cRLSign", "keyAgreement", 0);
    NotPrefixAt("cRLSign", "keyCertSign", 0);
    NotPrefixAt("cRLSign", "encipherOnly", 0);
    NotPrefixAt("cRLSign", "decipherOnly", 0);
    NotPrefixAt("cRLSign", "contentCommitment", 1);
  }

  lemma ReadsEncipherOnly(w: bv16)
    ensures TokenFlags(Pick(w, ENCIPHER_ONLY, "encipherOnly")) == w & ENCIPHER_ONLY
  {
    EncipherOnlyWord();
    PickFlags(w, ENCIPHER_ONLY, "encipherOnly");
  }

  lemma EncipherOnlyWord()
    ensures WordFlags("encipherOnly") == ENCIPHER_ONLY
  {
    PrefixSelf("encipherOnly");
    NotPrefixAt("encipherOnly", "digitalSignature", 0);
    NotPrefixAt("encipherOnly", "nonRepudiation", 0);
    NotPrefixAt("encipherOnly", "keyEncipherment", 0);
    NotPrefixAt("encipherOnly", "dataEncipherment", 0);
    NotPrefixAt("encipherOnly", "keyAgreement", 0);
    NotPrefixAt("encipherOnly", "keyCertSign", 0);
    NotPrefixAt("encipherOnly", "cRLSign", 0);
    NotPrefixAt("encipherOnly", "decipherOnly", 0);
    NotPrefixAt("encipherOnly", "contentCommitment", 0);
  }

  lemma ReadsDecipherOnly(w: bv16)
    ensures TokenFlags(Pick(w, DECIPHER_ONLY, "decipherOnly")) == w & DECIPHER_ONLY
  {
    DecipherOnlyWord();
    PickFlags(w, DECIPHER_ONLY, "decipherOnly");
  }

  lemma DecipherOnlyWord()
    ensures WordFlags("decipherOnly") == DECIPHER_ONLY
  {
    PrefixSelf("decipherOnly");
    NotPrefixAt("decipherOnly", "digitalSignature", 1);
    NotPrefixAt("decipherOnly", "nonRepudiation", 0);
    NotPrefixAt("decipherOnly", "keyEncipherment", 0);
    NotPrefixAt("decipherOnly", "dataEncipherment", 1);
    NotPrefixAt("decipherOnly", "keyAgreement", 0);
    NotPrefixAt("decipherOnly", "keyCertSign", 0);
    NotPrefixAt("decipherOnly", "cRLSign", 0);
    NotPrefixAt("decipherOnly", "encipherOnly", 0);
    NotPrefixAt("decipherOnly", "contentCommitment", 0);
  }

  lemma TokenFlags9(a1: seq<string>, a2: seq<string>, a3: seq<string>, a4: seq<string>,
                    a5: seq<string>, a6: seq<string>, a7: seq<string>, a8: seq<string>,
                    a9: seq<string>)
    ensures TokenFlags(a1 + a2 + a3 + a4 + a5 + a6 + a7 + a8 + a9) ==
      TokenFlags(a1) | TokenFlags(a2) | TokenFlags(a3) | TokenFlags(a4) | TokenFlags(a5)
      | TokenFlags(a6) | TokenFlags(a7) | TokenFlags(a8) | TokenFlags(a9)
  {
    TokenFlagsAppend(a1 + a2 + a3 + a4 + a5 + a6 + a7 + a8, a9);
    TokenFlagsAppend(a1 + a2 + a3 + a4 + a5 + a6 + a7, a8);
    TokenFlagsAppend(a1 + a2 + a3 + a4 + a5 + a6, a7);
    TokenFlagsAppend(a1 + a2 + a3 + a4 + a5, a6);
    TokenFlagsAppend(a1 + a2 + a3 + a4, a5);
    TokenFlagsAppend(a1 + a2 + a3, a4);
    TokenFlagsAppend(a1 + a2, a3);
    TokenFlagsAppend(a1, a2);
  }

  /** The printed names contain no comma, so they can be joined into one
      config value. */
  lemma PrintNamesWellFormed(w: bv16)
    ensures WellFormedTokens(PrintNames(w), ',')
  {
    var names := {"keyEncipherment", "digitalSignature", "nonRepudiation", "dataEncipherment",
      "keyAgreement", "keyCertSign", "cRLSign", "encipherOnly", "decipherOnly"};
    forall t | t in names ensures t != [] && ',' !in t {
    }
    forall i | 0 <= i < |PrintNames(w)| ensures PrintNames(w)[i] in names {
      assert PrintNames(w)[i] in PrintNames(w);
    }
  }

  /** Reading back what the printer prints: the names printed for a flag
      word, joined with commas as a config value, parse to that word (its
      usage bits). */
  lemma PrintThenParse(w: bv16)
    ensures TokenFlags(Tokens(Join(PrintNames(w), ','), ',')) == w & ALL_USAGE
  {
    PrintNamesWellFormed(w);
    TokensOfJoin(PrintNames(w), ',');
    TokenFlags9(Pick(w, KEY_ENCIPHER, "keyEncipherment"), Pick(w, DIGITAL_SIG, "digitalSignature"),
      Pick(w, CONTENT_COMMIT, "nonRepudiation"), Pick(w, DATA_ENCIPHER, "dataEncipherment"),
      Pick(w, KEY_AGREE, "keyAgreement"), Pick(w, KEY_CERT_SIGN, "keyCertSign"),
      Pick(w, CRL_SIGN, "cRLSign"), Pick(w, ENCIPHER_ONLY, "encipherOnly"),
      Pick(w, DECIPHER_ONLY, "decipherOnly"));
    ReadsKeyEncipherment(w);
    ReadsDigitalSignature(w);
    ReadsNonRepudiation(w);
    ReadsDataEncipherment(w);
    ReadsKeyAgreement(w);
    ReadsKeyCertSign(w);
    ReadsCRLSign(w);
    ReadsEncipherOnly(w);
    ReadsDecipherOnly(w);
  }
}
