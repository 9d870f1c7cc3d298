/** Applying an OpenSSL-style configuration file to a request: the
    extensions section (basicConstraints, subjectKeyIdentifier,
    authorityKeyIdentifier, keyUsage, subjectAltName with its DNS.i / IP.i
    section) and the distinguished-name section. The loaded file is a map
    from section name to that section's key/value pairs. */
module Config {
  import opened Common
  import opened Text
  import opened Document
  import opened KeyUsage

  type Section = map<string, string>
  type Conf = map<string, Section>

  /** The pairs of a section; a section the file lacks has none. */
  function SectionOf(conf: Conf, sect: string): Section {
    if sect in conf then conf[sect] else map[]
  }

  /** wolfSSL_NCONF_get_string: the value of key in section sect, if any. */
  function Get(conf: Conf, sect: string, key: string): Option<string> {
    var sec := SectionOf(conf, sect);
    if key in sec then Some(sec[key]) else None
  }

  // ---------------------------------------------------------------------
  // Key types
  // ---------------------------------------------------------------------

  /** wolfSSL's key OIDs. */
  const RSAk: int := 645
  const DSAk: int := 515
  const ECDSAk: int := 518
  const DHk: int := 647

  /** wolfCLU_GetTypeFromPKEY: the key OID for the four algorithms it knows,
      0 for any other key. */
  function TypeFromPKey(kind: KeyKind): (t: int)
    ensures t == 0 <==> kind == Ed25519Key || kind == OtherKey
    ensures kind == RsaKey ==> t == RSAk
    ensures kind == DsaKey ==> t == DSAk
    ensures kind == EcKey ==> t == ECDSAk
    ensures kind == DhKey ==> t == DHk
  {
    match kind
    case RsaKey => RSAk
    case DsaKey => DSAk
    case EcKey => ECDSAk
    case DhKey => DHk
    case _ => 0
  }

  /** The mapping loses nothing: two keys of different supported kinds never
      report the same type. */
  lemma TypeFromPKeyInjective(a: KeyKind, b: KeyKind)
    requires TypeFromPKey(a) == TypeFromPKey(b) != 0
    ensures a == b
  {
  }

  // ---------------------------------------------------------------------
  // The word "critical"
  // ---------------------------------------------------------------------

  /** `strstr("critical", str) != NULL` as the code has it: the whole value
      occurs inside the literal "critical". */
  predicate AsWrittenIsCritical(str: string) {
    Occurs(str, "critical")
  }

  /** The test the code means, `strstr(str, "critical") != NULL`: the value
      mentions "critical". The model's extensions use this one. */
  predicate IsCritical(str: string) {
    Occurs("critical", str)
  }

  /** As written, nothing longer than the literal itself is critical. */
  lemma AsWrittenCriticalIsShort(str: string)
    requires AsWrittenIsCritical(str)
    ensures |str| <= 8
  {
  }

  /** The two tests disagree both ways: the usual "critical,CA:TRUE" is not
      critical as written, while the empty value and a fragment such as "it"
      are. */
  lemma AsWrittenCriticalMisreads()
    ensures IsCritical("critical,CA:TRUE") && !AsWrittenIsCritical("critical,CA:TRUE")
    ensures AsWrittenIsCritical("") && !IsCritical("")
    ensures AsWrittenIsCritical("it") && !IsCritical("it")
  {
    assert OccursAt("critical", "critical,CA:TRUE", 0) by {
      assert "critical,CA:TRUE"[0..8] == "critical";
    }
    assert OccursAt("", "critical", 0);
    assert OccursAt("it", "critical", 2) by {
      assert "critical"[2..4] == "it";
    }
  }

  /** The intended test finds the word wherever it stands. */
  lemma CriticalAnywhere(a: string, b: string)
    ensures IsCritical(a + "critical" + b)
  {
    var s := a + "critical" + b;
    assert s[|a|..|a| + 8] == "critical";
    assert OccursAt("critical", s, |a|);
  }

  /** A value too short to hold the word is not critical. */
  lemma ShortIsNotCritical(str: string)
    requires |str| < 8
    ensures !IsCritical(str)
  {
  }

  // ---------------------------------------------------------------------
  // basicConstraints
  // ---------------------------------------------------------------------

  /** The CA flag and path length the parser fills in. */
  datatype Constraint = Constraint(ca: bool, pathLen: Option<int>)

  /** What the parser reads from the ':'-separated words ts, starting with
      constraint c: a word that is a prefix of "CA" takes the next word, and
      a prefix of "TRUE" there sets the flag; that next word (or, without
      "CA", the word itself) is then tested for "pathlen", which takes the
      word after it as the path length. The loop then goes on with the
      following word. */
  function Basic(ts: seq<string>, c: Constraint): Constraint
    decreases |ts|, 1
  {
    if ts == [] then c
    else if IsPrefix(ts[0], "CA") then
      if |ts| == 1 then c
      else PathLenTest(ts[1..], Constraint(c.ca || IsPrefix(ts[1], "TRUE"), c.pathLen))
    else PathLenTest(ts, c)
  }

  /** The "pathlen" test on the current word ts[0], then the rest of the
      loop. */
  function PathLenTest(ts: seq<string>, c: Constraint): Constraint
    requires ts != []
    decreases |ts|, 0
  {
    if IsPrefix(ts[0], "pathlen") then
      if |ts| == 1 then c else Basic(ts[2..], Constraint(c.ca, Some(Atoi(ts[1]))))
    else Basic(ts[1..], c)
  }

  /** The constraint of a basicConstraints value. */
  function BasicOf(str: string): Constraint {
    Basic(Tokens(str, ':'), Constraint(false, None))
  }

  /** The parser's extension for a value. */
  function BasicExt(str: string, crit: bool): Extension {
    var c := BasicOf(str);
    Extension(NID_basic_constraints, crit, BasicConstraints(c.ca, c.pathLen))
  }

  /** What strtok_r returns at cursor k: the k-th word, or NULL once the
      words are used up. */
  function WordAt(ts: seq<string>, k: nat): Option<string> {
    if k < |ts| then Some(ts[k]) else None
  }

  /** The words from cursor k on. */
  function From(ts: seq<string>, k: nat): seq<string> {
    if k <= |ts| then ts[k..] else []
  }

  /** wolfCLU_parseBasicConstraint: the strtok_r loop over the value. */
  method ParseBasicConstraint(str: string, crit: bool) returns (ext: Extension)
    ensures ext == BasicExt(str, crit)
  {
    var ts := Tokens(str, ':');
    var ca := false;
    var pathLen: Option<int> := None;
    var k := 0;
    var word := WordAt(ts, k);
    while word.Some?
      invariant k <= |ts| + 2
      invariant word == WordAt(ts, k)
      invariant Basic(From(ts, k), Constraint(ca, pathLen)) == BasicOf(str)
      decreases |ts| + 2 - k
    {
      ghost var c0 := Constraint(ca, pathLen);
      assert From(ts, k) == ts[k..] && ts[k..][0] == ts[k];
      if IsPrefix(word.value, "CA") {
        k := k + 1;
        word := WordAt(ts, k);
        if word.Some? {
          assert ts[k - 1..][1..] == ts[k..] && ts[k..][0] == ts[k];
          if IsPrefix(word.value, "TRUE") {
            ca := true;
          }
        }
      }
      if word.Some? && IsPrefix(word.value, "pathlen") {
        assert ts[k..][0] == ts[k] && ts[k..][1..] == From(ts, k + 1);
        k := k + 1;
        word := WordAt(ts, k);
        if word.Some? {
          assert ts[k - 1..][2..] == From(ts, k + 1) && ts[k - 1..][1] == ts[k];
          pathLen := Some(Atoi(word.value));
        }
      } else if word.Some? {
        assert ts[k..][1..] == From(ts, k + 1);
      }
      k := k + 1;
      word := WordAt(ts, k);
    }
    assert From(ts, k) == [];
    ext := Extension(NID_basic_constraints, crit, BasicConstraints(ca, pathLen));
  }

  /** The words of ts are read in whole passes of the loop: no pass of it
      reaches past the end of ts for a following word. */
  predicate Aligned(ts: seq<string>)
    decreases |ts|, 1
  {
    ts == [] ||
    if IsPrefix(ts[0], "CA") then |ts| > 1 && PathLenAligned(ts[1..])
    else PathLenAligned(ts)
  }

  predicate PathLenAligned(ts: seq<string>)
    requires ts != []
    decreases |ts|, 0
  {
    if IsPrefix(ts[0], "pathlen") then |ts| > 1 && Aligned(ts[2..])
    else Aligned(ts[1..])
  }

  lemma Tail2<T>(ts: seq<T>, us: seq<T>)
    requires |ts| >= 2
    ensures (ts + us)[1..] == ts[1..] + us && (ts + us)[2..] == ts[2..] + us
  {
  }

  /** Words read in whole passes can be followed by more: the parser goes on
      from the constraint they left. */
  lemma {:induction false} BasicAppend(ts: seq<string>, us: seq<string>, c: Constraint)
    requires Aligned(ts)
    ensures Basic(ts + us, c) == Basic(us, Basic(ts, c))
    decreases |ts|, 1
  {
    if ts != [] {
      assert (ts + us)[0] == ts[0];
      if IsPrefix(ts[0], "CA") {
        assert (ts + us)[1..] == ts[1..] + us && (ts + us)[1] == ts[1];
        PathLenAppend(ts[1..], us, Constraint(c.ca || IsPrefix(ts[1], "TRUE"), c.pathLen));
      } else {
        PathLenAppend(ts, us, c);
      }
    } else {
      assert ts + us == us;
    }
  }

  lemma {:induction false} PathLenAppend(ts: seq<string>, us: seq<string>, c: Constraint)
    requires ts != [] && PathLenAligned(ts)
    ensures PathLenTest(ts + us, c) == Basic(us, PathLenTest(ts, c))
    decreases |ts|, 0
  {
    assert (ts + us)[0] == ts[0];
    if IsPrefix(ts[0], "pathlen") {
      Tail2(ts, us);
      assert (ts + us)[1] == ts[1];
      BasicAppend(ts[2..], us, Constraint(c.ca, Some(Atoi(ts[1]))));
    } else {
      assert (ts + us)[1..] == ts[1..] + us;
      BasicAppend(ts[1..], us, c);
    }
  }

  /** A later "pathlen" replaces an earlier one: after words read in whole
      passes, "pathlen:N" sets the path length to N and keeps the CA flag. */
  lemma LaterPathLenWins(ts: seq<string>, v: string, c: Constraint)
    requires Aligned(ts)
    ensures Basic(ts + ["pathlen", v], c) == Constraint(Basic(ts, c).ca, Some(Atoi(v)))
  {
    BasicAppend(ts, ["pathlen", v], c);
    var us := ["pathlen", v];
    PrefixSelf("pathlen");
    NotPrefixAt("pathlen", "CA", 0);
    assert us[0] == "pathlen" && us[1] == v && us[2..] == [];
    assert Basic(us, Basic(ts, c)) == PathLenTest(us, Basic(ts, c));
  }

  /** "CA:TRUE" read after words in whole passes sets the flag and keeps the
      path length. */
  lemma LaterCaTrueSets(ts: seq<string>, c: Constraint)
    requires Aligned(ts)
    ensures Basic(ts + ["CA", "TRUE"], c) == Constraint(true, Basic(ts, c).pathLen)
  {
    BasicAppend(ts, ["CA", "TRUE"], c);
    var us := ["CA", "TRUE"];
    PrefixSelf("CA");
    PrefixSelf("TRUE");
    NotPrefixAt("TRUE", "pathlen", 0);
    assert us[0] == "CA" && us[1] == "TRUE" && us[1..] == ["TRUE"] && us[1..][1..] == [];
  }

  /** The value a configuration file usually holds reads as written:
      "CA:TRUE:pathlen:N" is a CA certificate with path length N. */
  lemma CaTruePathLen(n: int)
    ensures BasicOf("CA:TRUE:pathlen:" + IntToString(n)) == Constraint(true, Some(n))
  {
    NumberHasNoColon(n);
    CaTrueTokens(IntToString(n));
    CaTrueWords(IntToString(n));
    AtoiOfInt(n);
  }

  lemma CaTrueTokens(num: string)
    requires num != [] && ':' !in num
    ensures Tokens("CA:TRUE:pathlen:" + num, ':') == ["CA", "TRUE", "pathlen", num]
  {
    var ts := ["CA", "TRUE", "pathlen", num];
    assert WellFormedTokens(ts, ':') by {
      forall i | 0 <= i < 4 ensures ts[i] != [] && ':' !in ts[i] {
        if i < 3 {
          assert ts[i] == "CA" || ts[i] == "TRUE" || ts[i] == "pathlen";
        }
      }
    }
    JoinFour("CA", "TRUE", "pathlen", num, ':');
    CaTrueText(num);
    TokensOfJoin(ts, ':');
  }

  lemma CaTrueText(num: string)
    ensures "CA" + [':'] + ("TRUE" + [':'] + ("pathlen" + [':'] + num)) == "CA:TRUE:pathlen:" + num
  {
    assert "CA" + [':'] + ("TRUE" + [':'] + ("pathlen" + [':'] + num))
        == ("CA" + [':'] + "TRUE" + [':'] + "pathlen" + [':']) + num;
  }

  lemma JoinFour(a: string, b: string, c: string, e: string, d: char)
    ensures Join([a, b, c, e], d) == a + [d] + (b + [d] + (c + [d] + e))
  {
    var ts := [a, b, c, e];
    assert ts[1..] == [b, c, e] && ts[1..][1..] == [c, e] && ts[1..][1..][1..] == [e];
    assert Join([e], d) == e;
    assert Join([c, e], d) == c + [d] + e;
    assert Join([b, c, e], d) == b + [d] + (c + [d] + e);
  }

  lemma CaTrueWords(num: string)
    ensures Basic(["CA", "TRUE", "pathlen", num], Constraint(false, None)) == Constraint(true, Some(Atoi(num)))
  {
    var ts := ["CA", "TRUE", "pathlen", num];
    PrefixSelf("CA");
    PrefixSelf("TRUE");
    PrefixSelf("pathlen");
    NotPrefixAt("pathlen", "CA", 0);
    var c1 := Constraint(true, None);
    assert ts[1..] == ["TRUE", "pathlen", num];
    assert Basic(ts, Constraint(false, None)) == PathLenTest(ts[1..], c1);
    assert ts[1..][1..] == ["pathlen", num] && ["pathlen", num][2..] == [];
    assert PathLenTest(ts[1..], c1) == Basic(["pathlen", num], c1);
    assert Basic(["pathlen", num], c1) == PathLenTest(["pathlen", num], c1);
  }

  lemma NumberHasNoColon(n: int)
    ensures IntToString(n) != [] && ':' !in IntToString(n)
  {
    if n < 0 {
      assert IntToString(n) == "-" + NatToString(-n);
    }
  }

  /** A quirk of reading the word after "CA" twice: "CA:pathlen:5" leaves the
      flag clear but still sets the path length. */
  lemma CaThenPathLen()
    ensures BasicOf("CA:pathlen:5") == Constraint(false, Some(5))
  {
    var ts := ["CA", "pathlen", "5"];
    assert WellFormedTokens(ts, ':');
    assert Join(ts, ':') == "CA:pathlen:5" by {
      assert ts[1..][1..] == ["5"];
    }
    TokensOfJoin(ts, ':');
    AtoiOfDecimal(5);
    assert NatToString(5) == "5";
    PrefixSelf("CA");
    PrefixSelf("pathlen");
    NotPrefixAt("pathlen", "TRUE", 0);
    assert ts[1..][2..] == [];
  }

  // ---------------------------------------------------------------------
  // subjectKeyIdentifier
  // ---------------------------------------------------------------------

  /** The identifier "hash" yields for public key k. wolfSSL hashes RSA and
      ECC keys, and `hashes` holds the identifier of each key it hashes
      successfully; any other key type is reported as unsupported and its
      hashing fails. */
  function HashedSkid(k: Key, crit: bool, hashes: map<Key, seq<byte>>): Option<Extension> {
    if (k.kind == RsaKey || k.kind == EcKey) && k in hashes then
      Some(Extension(NID_subject_key_identifier, crit, SubjectKeyId(hashes[k])))
    else None
  }

  /** The loop over the ','-separated words: each prefix of "hash" gives up
      at once when the document has no public key, and otherwise replaces
      the extension built so far with a fresh one when hashing succeeds. */
  function Skid(ts: seq<string>, crit: bool, key: Option<Key>, hashes: map<Key, seq<byte>>,
                ext: Option<Extension>): Option<Extension>
    decreases |ts|
  {
    if ts == [] then ext
    else if IsPrefix(ts[0], "hash") then
      if key.None? then None
      else
        var h := HashedSkid(key.value, crit, hashes);
        Skid(ts[1..], crit, key, hashes, if h.Some? then h else ext)
    else Skid(ts[1..], crit, key, hashes, ext)
  }

  function SkidOf(str: string, crit: bool, key: Option<Key>, hashes: map<Key, seq<byte>>): Option<Extension> {
    Skid(Tokens(str, ','), crit, key, hashes, None)
  }

  /** wolfCLU_parseSubjectKeyID. */
  method ParseSubjectKeyId(str: string, crit: bool, x509: Cert, hashes: map<Key, seq<byte>>)
    returns (ext: Option<Extension>)
    ensures ext == SkidOf(str, crit, x509.doc.pubKey, hashes)
  {
    var ts := Tokens(str, ',');
    ext := None;
    var i := 0;
    while i < |ts|
      invariant 0 <= i <= |ts|
      invariant Skid(ts[i..], crit, x509.doc.pubKey, hashes, ext) == SkidOf(str, crit, x509.doc.pubKey, hashes)
    {
      assert ts[i..][0] == ts[i] && ts[i..][1..] == ts[i + 1..];
      if IsPrefix(ts[i], "hash") {
        var pkey := x509.doc.pubKey;
        if pkey.None? {
          return None;
        }
        var h := HashedSkid(pkey.value, crit, hashes);
        if h.Some? {
          ext := h;
        }
      }
      i := i + 1;
    }
  }

  /** Some word is a prefix of "hash" (so "h" and "ha" ask for it too). */
  predicate AsksForHash(ts: seq<string>) {
    exists i :: 0 <= i < |ts| && IsPrefix(ts[i], "hash")
  }

  /** The outcome of the loop: what it started with unless some word asks
      for the hash; then nothing without a public key, and otherwise the
      hashed identifier, or what it started with when hashing fails. */
  lemma {:induction false} SkidOutcome(ts: seq<string>, crit: bool, key: Option<Key>,
                                       hashes: map<Key, seq<byte>>, ext: Option<Extension>)
    ensures Skid(ts, crit, key, hashes, ext) ==
      if !AsksForHash(ts) then ext
      else if key.None? then None
      else if HashedSkid(key.value, crit, hashes).Some? then HashedSkid(key.value, crit, hashes)
      else ext
    decreases |ts|
  {
    if ts != [] {
      var rest := ts[1..];
      assert AsksForHash(rest) ==> AsksForHash(ts) by {
        if AsksForHash(rest) {
          var i :| 0 <= i < |rest| && IsPrefix(rest[i], "hash");
          assert ts[i + 1] == rest[i];
        }
      }
      if !IsPrefix(ts[0], "hash") {
        assert AsksForHash(ts) ==> AsksForHash(rest) by {
          if AsksForHash(ts) {
            var i :| 0 <= i < |ts| && IsPrefix(ts[i], "hash");
            assert i > 0 && rest[i - 1] == ts[i];
          }
        }
        SkidOutcome(rest, crit, key, hashes, ext);
      } else if key.Some? {
        var h := HashedSkid(key.value, crit, hashes);
        SkidOutcome(rest, crit, key, hashes, if h.Some? then h else ext);
      }
    }
  }

  /** The value yields an extension exactly when some word asks for the hash,
      the document has a public key, and that key hashes; it is then the
      key's identifier. */
  lemma SkidIff(str: string, crit: bool, key: Option<Key>, hashes: map<Key, seq<byte>>)
    ensures SkidOf(str, crit, key, hashes).Some? <==>
      AsksForHash(Tokens(str, ',')) && key.Some? && HashedSkid(key.value, crit, hashes).Some?
    ensures SkidOf(str, crit, key, hashes).Some? ==>
      SkidOf(str, crit, key, hashes) == HashedSkid(key.value, crit, hashes)
  {
    SkidOutcome(Tokens(str, ','), crit, key, hashes, None);
  }

  // ---------------------------------------------------------------------
  // One extension
  // ---------------------------------------------------------------------

  /** The extension wolfCLU_parseExtension builds for a value under a NID:
      basicConstraints, subjectKeyIdentifier and keyUsage have parsers,
      authorityKeyIdentifier and every other NID yield nothing. */
  function NewExtension(key: Option<Key>, str: string, nid: int, hashes: map<Key, seq<byte>>): (e: Option<Extension>)
    ensures e.Some? ==> e.value.nid == nid && e.value.critical == IsCritical(str)
    ensures nid != NID_basic_constraints && nid != NID_subject_key_identifier && nid != NID_key_usage
      ==> e.None?
    ensures nid == NID_basic_constraints || nid == NID_key_usage ==> e.Some?
  {
    var crit := IsCritical(str);
    if nid == NID_basic_constraints then Some(BasicExt(str, crit))
    else if nid == NID_subject_key_identifier then
      SkidIff(str, crit, key, hashes);
      SkidOf(str, crit, key, hashes)
    else if nid == NID_key_usage then
      Some(Extension(NID_key_usage, crit, KeyUsage(TokenFlags(Tokens(str, ',')))))
    else None
  }

  /** wolfSSL_X509_add_ext: the extension joins the document's list. */
  function AddExtension(doc: Doc, e: Option<Extension>): Doc {
    if e.Some? then doc.(extensions := doc.extensions + [e.value]) else doc
  }

  /** wolfCLU_parseExtension: builds the extension, adds it and counts it in
      idx; it reports success whatever happened. */
  method ParseExtension(x509: Cert, str: string, nid: int, idx: int, hashes: map<Key, seq<byte>>)
    returns (r: int, idx': int)
    modifies x509
    ensures x509.doc == AddExtension(old(x509.doc), NewExtension(old(x509.doc).pubKey, str, nid, hashes))
    ensures idx' == if NewExtension(old(x509.doc).pubKey, str, nid, hashes).Some? then idx + 1 else idx
    ensures r == WOLFCLU_SUCCESS
  {
    var crit := IsCritical(str);
    var ext: Option<Extension> := None;
    if nid == NID_basic_constraints {
      var e := ParseBasicConstraint(str, crit);
      ext := Some(e);
    } else if nid == NID_subject_key_identifier {
      ext := ParseSubjectKeyId(str, crit, x509, hashes);
    } else if nid == NID_authority_key_identifier {
    } else if nid == NID_key_usage {
      var e := ParseKeyUsage(str, crit);
      ext := Some(e);
    }
    idx' := idx;
    if ext.Some? {
      x509.doc := x509.doc.(extensions := x509.doc.extensions + [ext.value]);
      idx' := idx + 1;
    }
    r := WOLFCLU_SUCCESS;
  }

  // ---------------------------------------------------------------------
  // Numbered keys: DNS.i, IP.i and i.organizationName
  // ---------------------------------------------------------------------

  /** A family of keys prefix + "%d" + suffix. */
  datatype KeyPattern = Numbered(prefix: string, suffix: string)

  const DnsKeys: KeyPattern := Numbered("DNS.", "")
  const IpKeys: KeyPattern := Numbered("IP.", "")
  const OrgKeys: KeyPattern := Numbered("", ".organizationName")

  /** The i-th key of a family, printed in full. */
  function KeyOf(pat: KeyPattern, i: nat): string {
    pat.prefix + NatToString(i) + pat.suffix
  }

  /** Different numbers name different keys. */
  lemma KeyOfInjective(pat: KeyPattern, a: nat, b: nat)
    requires KeyOf(pat, a) == KeyOf(pat, b)
    ensures a == b
  {
    var p := |pat.prefix|;
    var x := NatToString(a);
    var y := NatToString(b);
    assert |x| == |y|;
    assert x == KeyOf(pat, a)[p..p + |x|];
    assert y == KeyOf(pat, b)[p..p + |y|];
    DecimalInjective(a, b);
  }

  /** Every key of the family from start up to i - 1 is in the section. */
  predicate PresentFrom(sec: Section, pat: KeyPattern, start: nat, i: nat) {
    forall j :: start <= j < i ==> KeyOf(pat, j) in sec
  }

  function KeysBetween(pat: KeyPattern, start: nat, i: nat): set<string> {
    set j: nat | start <= j < i :: KeyOf(pat, j)
  }

  lemma {:induction false} KeysBetweenSize(pat: KeyPattern, start: nat, i: nat)
    requires start <= i
    ensures |KeysBetween(pat, start, i)| == i - start
    decreases i - start
  {
    if i > start {
      KeysBetweenSize(pat, start, i - 1);
      var k := KeyOf(pat, i - 1);
      assert KeysBetween(pat, start, i) == KeysBetween(pat, start, i - 1) + {k};
      if k in KeysBetween(pat, start, i - 1) {
        var j: nat :| start <= j < i - 1 && KeyOf(pat, j) == k;
        KeyOfInjective(pat, j, i - 1);
      }
    } else {
      assert KeysBetween(pat, start, i) == {};
    }
  }

  /** A section holds at least as many keys as a run of the family it
      contains, so a scan over the family ends. */
  lemma PresentCount(sec: Section, pat: KeyPattern, start: nat, i: nat)
    requires start <= i && PresentFrom(sec, pat, start, i)
    ensures i - start <= |sec.Keys|
  {
    var s := KeysBetween(pat, start, i);
    KeysBetweenSize(pat, start, i);
    forall k | k in s
      ensures k in sec.Keys
    {
      var j: nat :| start <= j < i && KeyOf(pat, j) == k;
    }
    SubsetSize(s, sec.Keys);
  }

  lemma SubsetSize<T>(a: set<T>, b: set<T>)
    requires a <= b
    ensures |a| <= |b|
  {
    assert b == a + (b - a);
    assert a * (b - a) == {};
  }

  /** The values of the keys i, i + 1, ... of a family, up to the first key
      the section lacks. */
  function RunFrom(sec: Section, pat: KeyPattern, start: nat, i: nat): (r: seq<string>)
    requires start <= i && PresentFrom(sec, pat, start, i)
    ensures forall j :: i <= j < i + |r| ==> KeyOf(pat, j) in sec && r[j - i] == sec[KeyOf(pat, j)]
    ensures KeyOf(pat, i + |r|) !in sec
    decreases |sec.Keys| - (i - start)
  {
    if KeyOf(pat, i) in sec then
      PresentCount(sec, pat, start, i + 1);
      [sec[KeyOf(pat, i)]] + RunFrom(sec, pat, start, i + 1)
    else []
  }

  /** The run of a family from its first number. */
  function Run(sec: Section, pat: KeyPattern, start: nat): seq<string> {
    RunFrom(sec, pat, start, start)
  }

  /** A run is determined by its contents: the values of consecutive keys
      from start, ending where the section first lacks a key. */
  lemma RunUnique(sec: Section, pat: KeyPattern, start: nat, vs: seq<string>)
    requires forall j :: start <= j < start + |vs| ==> KeyOf(pat, j) in sec && vs[j - start] == sec[KeyOf(pat, j)]
    requires KeyOf(pat, start + |vs|) !in sec
    ensures Run(sec, pat, start) == vs
  {
    var r := Run(sec, pat, start);
    assert |r| == |vs|;
    forall k | 0 <= k < |r|
      ensures r[k] == vs[k]
    {
      assert KeyOf(pat, start + k) in sec;
    }
  }

  /** One step of a scan: the run from i is the value of key i followed by
      the run from i + 1. */
  lemma RunStep(sec: Section, pat: KeyPattern, start: nat, i: nat)
    requires start <= i && PresentFrom(sec, pat, start, i) && KeyOf(pat, i) in sec
    ensures PresentFrom(sec, pat, start, i + 1)
    ensures RunFrom(sec, pat, start, i) == [sec[KeyOf(pat, i)]] + RunFrom(sec, pat, start, i + 1)
  {
  }

  // ---------------------------------------------------------------------
  // subjectAltName section
  // ---------------------------------------------------------------------

  /** `snprintf(name, 6, "DNS.%d", i)` as written: the key is cut to five
      characters. */
  function AsWrittenAltKey(prefix: string, i: nat): string {
    var s := prefix + NatToString(i);
    if |s| <= 5 then s else s[..5]
  }

  /** Below the cut the two keys agree. */
  lemma AsWrittenAltKeyShort(prefix: string, i: nat)
    requires |prefix| + |NatToString(i)| <= 5
    ensures AsWrittenAltKey(prefix, i) == KeyOf(Numbered(prefix, ""), i)
  {
    assert prefix + NatToString(i) + "" == prefix + NatToString(i);
  }

  /** The first digit of a positive number is 1 to 9. */
  lemma {:induction false} LeadingDigit(i: nat)
    requires i >= 1
    ensures exists d: nat {:trigger DigitChar(d)} :: 1 <= d <= 9 && NatToString(i)[0] == DigitChar(d)
    decreases i
  {
    if i < 10 {
      assert NatToString(i)[0] == DigitChar(i);
    } else {
      LeadingDigit(i / 10);
      assert NatToString(i)[0] == NatToString(i / 10)[0];
    }
  }

  /** From 10 on the truncated key repeats one of DNS.1 to DNS.9. */
  lemma AsWrittenDnsKeyRepeats(i: nat)
    requires i >= 10
    ensures exists d: nat {:trigger KeyOf(DnsKeys, d)} :: 1 <= d <= 9 && AsWrittenAltKey("DNS.", i) == KeyOf(DnsKeys, d)
  {
    LeadingDigit(i);
    var d: nat :| 1 <= d <= 9 && NatToString(i)[0] == DigitChar(d);
    var s := "DNS." + NatToString(i);
    assert NatToString(d) == [DigitChar(d)];
    assert s[..5] == "DNS." + [NatToString(i)[0]];
    assert KeyOf(DnsKeys, d) == "DNS." + [DigitChar(d)] + "";
  }

  /** The loop as written never asks for DNS.10 or any longer key. */
  lemma AsWrittenSkipsDns10(i: nat)
    ensures |AsWrittenAltKey("DNS.", i)| <= 5
    ensures AsWrittenAltKey("DNS.", i) != KeyOf(DnsKeys, 10)
  {
    assert NatToString(10) == "10" by {
      assert NatToString(1) == "1" && NatToString(0) == "0";
    }
    assert |KeyOf(DnsKeys, 10)| == 6;
  }

  /** ... and once DNS.1 to DNS.9 are all present, every key it asks for is
      present, so the do-while loop as written never stops. */
  lemma AsWrittenDnsNeverStops(sec: Section, i: nat)
    requires forall d: nat :: 1 <= d <= 9 ==> KeyOf(DnsKeys, d) in sec
    requires i >= 1
    ensures AsWrittenAltKey("DNS.", i) in sec
  {
    if i < 10 {
      assert NatToString(i) == [DigitChar(i)];
      AsWrittenAltKeyShort("DNS.", i);
    } else {
      AsWrittenDnsKeyRepeats(i);
    }
  }
  /** The first two digits of a number from 10 on print a number from 10
      to 99. */
  lemma {:induction false} LeadingTwoDigits(i: nat)
    requires i >= 10
    ensures |NatToString(i)| >= 2
    ensures exists d: nat {:trigger NatToString(d)} :: 10 <= d <= 99 && NatToString(i)[..2] == NatToString(d)
    decreases i
  {
    if i < 100 {
      assert NatToString(i)[..2] == NatToString(i);
    } else {
      LeadingTwoDigits(i / 10);
      assert NatToString(i)[..2] == NatToString(i / 10)[..2];
    }
  }

  /** `snprintf(name, 6, "IP.%d", i)` cuts the key in the same way: from
      100 on it repeats one of IP.10 to IP.99. */
  lemma AsWrittenIpKeyRepeats(i: nat)
    requires i >= 100
    ensures exists d: nat {:trigger KeyOf(IpKeys, d)} :: 10 <= d <= 99 && AsWrittenAltKey("IP.", i) == KeyOf(IpKeys, d)
  {
    LeadingTwoDigits(i);
    var d: nat :| 10 <= d <= 99 && NatToString(i)[..2] == NatToString(d);
    var s := "IP." + NatToString(i);
    assert s[..5] == "IP." + NatToString(i)[..2];
    assert KeyOf(IpKeys, d) == "IP." + NatToString(d) + "";
  }

  /** The IP loop as written never asks for IP.100 or any longer key. */
  lemma AsWrittenSkipsIp100(i: nat)
    ensures |AsWrittenAltKey("IP.", i)| <= 5
    ensures AsWrittenAltKey("IP.", i) != KeyOf(IpKeys, 100)
  {
  }

  /** ... and once IP.1 to IP.99 are all present, every key it asks for is
      present, so the do-while loop as written never stops (unless a value
      does not convert). */
  lemma AsWrittenIpNeverStops(sec: Section, i: nat)
    requires forall d: nat :: 1 <= d <= 99 ==> KeyOf(IpKeys, d) in sec
    requires i >= 1
    ensures AsWrittenAltKey("IP.", i) in sec
  {
    if i < 100 {
      assert |NatToString(i)| <= 2 by {
        if i >= 10 {
          assert NatToString(i) == NatToString(i / 10) + [DigitChar(i % 10)];
        }
      }
      AsWrittenAltKeyShort("IP.", i);
    } else {
      AsWrittenIpKeyRepeats(i);
    }
  }


  /** The alt names of a list of DNS values, in order. */
  function DnsAlts(vs: seq<string>): seq<AltName> {
    if vs == [] then [] else DnsAlts(vs[..|vs| - 1]) + [DnsName(vs[|vs| - 1])]
  }

  /** The number of leading IP values that wolfSSL_a2i_IPADDRESS converts;
      `ips` holds the octets of every string it accepts. */
  function GoodIps(vs: seq<string>, ips: map<string, seq<byte>>): (n: nat)
    ensures n <= |vs|
    ensures forall k :: 0 <= k < n ==> vs[k] in ips
    ensures n < |vs| ==> vs[n] !in ips
  {
    if vs == [] || vs[0] !in ips then 0 else 1 + GoodIps(vs[1..], ips)
  }

  /** The alt names of IP values that all convert. */
  function IpAlts(vs: seq<string>, ips: map<string, seq<byte>>): seq<AltName>
    requires forall k :: 0 <= k < |vs| ==> vs[k] in ips
  {
    if vs == [] then [] else IpAlts(vs[..|vs| - 1], ips) + [IpAddress(ips[vs[|vs| - 1]])]
  }

  /** A document change together with the code of the function that made it. */
  datatype Applied = Applied(doc: Doc, code: int)

  /** wolfCLU_setAltNames: DNS.1, DNS.2, ... up to the first missing key, then
      IP.1, IP.2, ... likewise; the first IP value that does not convert ends
      it with a fatal error, keeping what was added before it. */
  function AltNamesApplied(doc: Doc, conf: Conf, sect: Option<string>, ips: map<string, seq<byte>>): Applied {
    if sect.None? then Applied(doc, WOLFCLU_SUCCESS)
    else
      var sec := SectionOf(conf, sect.value);
      var dns := Run(sec, DnsKeys, 1);
      var ipv := Run(sec, IpKeys, 1);
      var n := GoodIps(ipv, ips);
      Applied(doc.(altNames := doc.altNames + DnsAlts(dns) + IpAlts(ipv[..n], ips)),
              if n == |ipv| then WOLFCLU_SUCCESS else WOLFCLU_FATAL_ERROR)
  }

  lemma DnsAltsSnoc(vs: seq<string>, v: string)
    ensures DnsAlts(vs + [v]) == DnsAlts(vs) + [DnsName(v)]
  {
    assert (vs + [v])[..|vs|] == vs;
  }

  lemma IpAltsSnoc(vs: seq<string>, v: string, ips: map<string, seq<byte>>)
    requires forall k :: 0 <= k < |vs| ==> vs[k] in ips
    requires v in ips
    ensures forall k :: 0 <= k < |vs + [v]| ==> (vs + [v])[k] in ips
    ensures IpAlts(vs + [v], ips) == IpAlts(vs, ips) + [IpAddress(ips[v])]
  {
    assert (vs + [v])[..|vs|] == vs;
  }

  lemma {:induction false} GoodIpsAppend(read: seq<string>, rest: seq<string>, ips: map<string, seq<byte>>)
    requires forall k :: 0 <= k < |read| ==> read[k] in ips
    ensures GoodIps(read + rest, ips) == |read| + GoodIps(rest, ips)
    decreases |read|
  {
    if read == [] {
      assert read + rest == rest;
    } else {
      assert (read + rest)[0] == read[0] && (read + rest)[1..] == read[1..] + rest;
      GoodIpsAppend(read[1..], rest, ips);
    }
  }

  /** The IP scan ran out of keys with every value converted. */
  lemma IpsAllGood(read: seq<string>, rest: seq<string>, ipv: seq<string>, ips: map<string, seq<byte>>)
    requires read + rest == ipv && rest == []
    requires forall k :: 0 <= k < |read| ==> read[k] in ips
    ensures GoodIps(ipv, ips) == |ipv| && ipv[..GoodIps(ipv, ips)] == read
  {
    assert read == ipv;
    GoodIpsAppend(read, [], ips);
  }

  /** The IP scan met a value that does not convert. */
  lemma IpsBad(read: seq<string>, rest: seq<string>, ipv: seq<string>, ips: map<string, seq<byte>>)
    requires read + rest == ipv && rest != [] && rest[0] !in ips
    requires forall k :: 0 <= k < |read| ==> read[k] in ips
    ensures GoodIps(ipv, ips) == |read| < |ipv| && ipv[..GoodIps(ipv, ips)] == read
  {
    GoodIpsAppend(read, rest, ips);
    assert ipv[..|read|] == read;
  }

  /** The DNS scan has read the values of DNS.1 .. DNS.(i-1). */
  predicate DnsScanned(sec: Section, read: seq<string>, i: nat) {
    1 <= i && PresentFrom(sec, DnsKeys, 1, i)
    && read + RunFrom(sec, DnsKeys, 1, i) == Run(sec, DnsKeys, 1)
  }

  /** One DNS value read: the scan moves on by one key. */
  lemma DnsStep(sec: Section, read: seq<string>, i: nat)
    requires DnsScanned(sec, read, i) && KeyOf(DnsKeys, i) in sec
    ensures DnsScanned(sec, read + [sec[KeyOf(DnsKeys, i)]], i + 1)
    ensures i <= |sec.Keys|
    ensures DnsAlts(read + [sec[KeyOf(DnsKeys, i)]]) == DnsAlts(read) + [DnsName(sec[KeyOf(DnsKeys, i)])]
  {
    var v := sec[KeyOf(DnsKeys, i)];
    RunStep(sec, DnsKeys, 1, i);
    PresentCount(sec, DnsKeys, 1, i + 1);
    Assoc(read, [v], RunFrom(sec, DnsKeys, 1, i + 1));
    DnsAltsSnoc(read, v);
  }

  /** The DNS scan met a missing key: it has read the whole run. */
  lemma DnsStop(sec: Section, read: seq<string>, i: nat)
    requires DnsScanned(sec, read, i) && KeyOf(DnsKeys, i) !in sec
    ensures read == Run(sec, DnsKeys, 1)
  {
    assert RunFrom(sec, DnsKeys, 1, i) == [];
    assert read + [] == read;
  }

  /** The DNS half of wolfCLU_setAltNames, reading the whole key DNS.i
      (the code as written cuts it: see AsWrittenDnsNeverStops). */
  method AddDnsNames(x509: Cert, conf: Conf, sect: string)
    modifies x509
    ensures x509.doc == old(x509.doc).(altNames := old(x509.doc).altNames
                                       + DnsAlts(Run(SectionOf(conf, sect), DnsKeys, 1)))
  {
    ghost var sec := SectionOf(conf, sect);
    ghost var read: seq<string> := [];
    var i := 1;
    while true
      invariant DnsScanned(sec, read, i)
      invariant x509.doc == old(x509.doc).(altNames := old(x509.doc).altNames + DnsAlts(read))
      decreases |sec.Keys| - (i - 1)
    {
      var current := Get(conf, sect, KeyOf(DnsKeys, i));
      if current.None? {
        DnsStop(sec, read, i);
        break;
      }
      DnsStep(sec, read, i);
      x509.doc := x509.doc.(altNames := x509.doc.altNames + [DnsName(current.value)]);
      Assoc(old(x509.doc).altNames, DnsAlts(read), [DnsName(current.value)]);
      read := read + [current.value];
      i := i + 1;
    }
  }

  /** The IP scan has read the values of IP.1 .. IP.(i-1), all convertible. */
  predicate IpScanned(sec: Section, ipv: seq<string>, read: seq<string>, i: nat, ips: map<string, seq<byte>>) {
    1 <= i && PresentFrom(sec, IpKeys, 1, i)
    && read + RunFrom(sec, IpKeys, 1, i) == ipv
    && (forall k :: 0 <= k < |read| ==> read[k] in ips)
  }

  /** One convertible IP value read: the scan moves on by one key. */
  lemma IpStep(sec: Section, ipv: seq<string>, read: seq<string>, i: nat, ips: map<string, seq<byte>>)
    requires IpScanned(sec, ipv, read, i, ips)
    requires KeyOf(IpKeys, i) in sec && sec[KeyOf(IpKeys, i)] in ips
    ensures IpScanned(sec, ipv, read + [sec[KeyOf(IpKeys, i)]], i + 1, ips)
    ensures i <= |sec.Keys|
    ensures IpAlts(read + [sec[KeyOf(IpKeys, i)]], ips) == IpAlts(read, ips) + [IpAddress(ips[sec[KeyOf(IpKeys, i)]])]
  {
    var v := sec[KeyOf(IpKeys, i)];
    RunStep(sec, IpKeys, 1, i);
    PresentCount(sec, IpKeys, 1, i + 1);
    Assoc(read, [v], RunFrom(sec, IpKeys, 1, i + 1));
    IpAltsSnoc(read, v, ips);
  }

  /** The IP scan met a missing key or a value that does not convert. */
  lemma IpStop(sec: Section, ipv: seq<string>, read: seq<string>, i: nat, ips: map<string, seq<byte>>)
    requires IpScanned(sec, ipv, read, i, ips)
    requires KeyOf(IpKeys, i) in sec ==> sec[KeyOf(IpKeys, i)] !in ips
    ensures ipv[..GoodIps(ipv, ips)] == read
    ensures (GoodIps(ipv, ips) == |ipv|) == (KeyOf(IpKeys, i) !in sec)
  {
    if KeyOf(IpKeys, i) in sec {
      RunStep(sec, IpKeys, 1, i);
      IpsBad(read, RunFrom(sec, IpKeys, 1, i), ipv, ips);
    } else {
      IpsAllGood(read, RunFrom(sec, IpKeys, 1, i), ipv, ips);
    }
  }

  /** The IP half of wolfCLU_setAltNames, reading the whole key IP.i
      (the code as written cuts it: see AsWrittenIpNeverStops). */
  method AddIpNames(x509: Cert, conf: Conf, sect: string, ips: map<string, seq<byte>>)
    returns (r: int)
    modifies x509
    ensures var ipv := Run(SectionOf(conf, sect), IpKeys, 1);
      var n := GoodIps(ipv, ips);
      x509.doc == old(x509.doc).(altNames := old(x509.doc).altNames + IpAlts(ipv[..n], ips))
      && r == if n == |ipv| then WOLFCLU_SUCCESS else WOLFCLU_FATAL_ERROR
  {
    ghost var sec := SectionOf(conf, sect);
    ghost var ipv := Run(sec, IpKeys, 1);
    ghost var read: seq<string> := [];
    var i := 1;
    while true
      invariant IpScanned(sec, ipv, read, i, ips)
      invariant x509.doc == old(x509.doc).(altNames := old(x509.doc).altNames + IpAlts(read, ips))
      decreases |sec.Keys| - (i - 1)
    {
      var current := Get(conf, sect, KeyOf(IpKeys, i));
      if current.None? {
        IpStop(sec, ipv, read, i, ips);
        return WOLFCLU_SUCCESS;
      }
      if current.value !in ips {
        IpStop(sec, ipv, read, i, ips);
        return WOLFCLU_FATAL_ERROR;
      }
      IpStep(sec, ipv, read, i, ips);
      x509.doc := x509.doc.(altNames := x509.doc.altNames + [IpAddress(ips[current.value])]);
      Assoc(old(x509.doc).altNames, IpAlts(read, ips), [IpAddress(ips[current.value])]);
      read := read + [current.value];
      i := i + 1;
    }
  }

  /** wolfCLU_setAltNames. */
  method SetAltNames(x509: Cert, conf: Conf, sect: Option<string>, ips: map<string, seq<byte>>)
    returns (r: int)
    modifies x509
    ensures x509.doc == AltNamesApplied(old(x509.doc), conf, sect, ips).doc
    ensures r == AltNamesApplied(old(x509.doc), conf, sect, ips).code
  {
    if sect.None? {
      return WOLFCLU_SUCCESS;
    }
    AddDnsNames(x509, conf, sect.value);
    r := AddIpNames(x509, conf, sect.value, ips);
  }

  /** A bad IP value is fatal, yet every DNS name and every IP value before it
      has been added. */
  lemma BadIpKeepsEarlier(doc: Doc, conf: Conf, sect: string, ips: map<string, seq<byte>>, k: nat)
    requires var ipv := Run(SectionOf(conf, sect), IpKeys, 1);
      k < |ipv| && ipv[k] !in ips && forall j :: 0 <= j < k ==> ipv[j] in ips
    ensures AltNamesApplied(doc, conf, Some(sect), ips).code == WOLFCLU_FATAL_ERROR
    ensures AltNamesApplied(doc, conf, Some(sect), ips).doc.altNames ==
      doc.altNames + DnsAlts(Run(SectionOf(conf, sect), DnsKeys, 1))
                   + IpAlts(Run(SectionOf(conf, sect), IpKeys, 1)[..k], ips)
  {
    var ipv := Run(SectionOf(conf, sect), IpKeys, 1);
    var n := GoodIps(ipv, ips);
    assert n == k;
  }

  /** With the untruncated keys the scan reads DNS.10 after DNS.9 and stops
      at the first missing number. */
  lemma DnsRunReadsAll(sec: Section, n: nat)
    requires forall d: nat :: 1 <= d <= n ==> KeyOf(DnsKeys, d) in sec
    requires KeyOf(DnsKeys, n + 1) !in sec
    ensures Run(sec, DnsKeys, 1) == seq(n, k requires 0 <= k < n => sec[KeyOf(DnsKeys, k + 1)])
  {
    var vs := seq(n, k requires 0 <= k < n => sec[KeyOf(DnsKeys, k + 1)]);
    forall j | 1 <= j < 1 + |vs|
      ensures KeyOf(DnsKeys, j) in sec && vs[j - 1] == sec[KeyOf(DnsKeys, j)]
    {
    }
    RunUnique(sec, DnsKeys, 1, vs);
  }
  /** With the untruncated keys the IP scan reads IP.100 after IP.99 and
      stops at the first missing number. */
  lemma IpRunReadsAll(sec: Section, n: nat)
    requires forall d: nat :: 1 <= d <= n ==> KeyOf(IpKeys, d) in sec
    requires KeyOf(IpKeys, n + 1) !in sec
    ensures Run(sec, IpKeys, 1) == seq(n, k requires 0 <= k < n => sec[KeyOf(IpKeys, k + 1)])
  {
    var vs := seq(n, k requires 0 <= k < n => sec[KeyOf(IpKeys, k + 1)]);
    forall j | 1 <= j < 1 + |vs|
      ensures KeyOf(IpKeys, j) in sec && vs[j - 1] == sec[KeyOf(IpKeys, j)]
    {
    }
    RunUnique(sec, IpKeys, 1, vs);
  }


  // ---------------------------------------------------------------------
  // Extensions section
  // ---------------------------------------------------------------------

  function Opt(e: Option<Extension>): seq<Extension> {
    if e.Some? then [e.value] else []
  }

  /** The extension built from key of the section, when the key is there. */
  function FromKey(conf: Conf, sect: string, key: string, nid: int, pubKey: Option<Key>,
                   hashes: map<Key, seq<byte>>): Option<Extension> {
    match Get(conf, sect, key)
    case None => None
    case Some(v) => NewExtension(pubKey, v, nid, hashes)
  }

  /** The section named by a subjectAltName value "@name". */
  function AltNameSection(san: Option<string>): Option<string> {
    if san.Some? && |san.value| > 0 && san.value[0] == '@' then Some(san.value[1..]) else None
  }

  /** wolfCLU_setExtensions: basicConstraints, subjectKeyIdentifier,
      authorityKeyIdentifier and keyUsage in that order, then the alt-name
      section that subjectAltName names. */
  function ExtensionsApplied(doc: Doc, conf: Conf, sect: Option<string>,
                             hashes: map<Key, seq<byte>>, ips: map<string, seq<byte>>): Doc {
    if sect.None? then doc
    else
      var s := sect.value;
      var d1 := AddExtension(doc, FromKey(conf, s, "basicConstraints", NID_basic_constraints, doc.pubKey, hashes));
      var d2 := AddExtension(d1, FromKey(conf, s, "subjectKeyIdentifier", NID_subject_key_identifier, d1.pubKey, hashes));
      var d3 := AddExtension(d2, FromKey(conf, s, "authorityKeyIdentifier", NID_authority_key_identifier, d2.pubKey, hashes));
      var d4 := AddExtension(d3, FromKey(conf, s, "keyUsage", NID_key_usage, d3.pubKey, hashes));
      AltNamesApplied(d4, conf, AltNameSection(Get(conf, s, "subjectAltName")), ips).doc
  }

  /** One `current = get(...); if (current != NULL) parseExtension(...)` step
      of wolfCLU_setExtensions. */
  method ExtensionFromKey(x509: Cert, conf: Conf, s: string, key: string, nid: int, idx: int,
                          hashes: map<Key, seq<byte>>) returns (idx': int)
    modifies x509
    ensures x509.doc == AddExtension(old(x509.doc), FromKey(conf, s, key, nid, old(x509.doc).pubKey, hashes))
  {
    idx' := idx;
    var current := Get(conf, s, key);
    if current.Some? {
      var _, i := ParseExtension(x509, current.value, nid, idx, hashes);
      idx' := i;
    }
  }

  /** wolfCLU_setExtensions. */
  method SetExtensions(x509: Cert, conf: Conf, sect: Option<string>,
                       hashes: map<Key, seq<byte>>, ips: map<string, seq<byte>>) returns (r: int)
    modifies x509
    ensures x509.doc == ExtensionsApplied(old(x509.doc), conf, sect, hashes, ips)
    ensures r == WOLFCLU_SUCCESS
  {
    if sect.None? {
      return WOLFCLU_SUCCESS;
    }
    var s := sect.value;
    var idx := 1;
    idx := ExtensionFromKey(x509, conf, s, "basicConstraints", NID_basic_constraints, idx, hashes);
    idx := ExtensionFromKey(x509, conf, s, "subjectKeyIdentifier", NID_subject_key_identifier, idx, hashes);
    idx := ExtensionFromKey(x509, conf, s, "authorityKeyIdentifier", NID_authority_key_identifier, idx, hashes);
    idx := ExtensionFromKey(x509, conf, s, "keyUsage", NID_key_usage, idx, hashes);
    var current := Get(conf, s, "subjectAltName");
    if current.Some? && |current.value| > 0 && current.value[0] == '@' {
      var _ := SetAltNames(x509, conf, Some(current.value[1..]), ips);
    }
    r := WOLFCLU_SUCCESS;
  }

  /** Position of an extension in the order setExtensions adds them. */
  function NidRank(nid: int): int {
    if nid == NID_basic_constraints then 0
    else if nid == NID_subject_key_identifier then 1
    else if nid == NID_key_usage then 2
    else 3
  }

  predicate RankSorted(es: seq<Extension>) {
    forall a, b :: 0 <= a < b < |es| ==> NidRank(es[a].nid) < NidRank(es[b].nid)
  }

  /** The extensions a section adds. */
  function Added(conf: Conf, s: string, pubKey: Option<Key>, hashes: map<Key, seq<byte>>): seq<Extension> {
    Opt(FromKey(conf, s, "basicConstraints", NID_basic_constraints, pubKey, hashes))
    + Opt(FromKey(conf, s, "subjectKeyIdentifier", NID_subject_key_identifier, pubKey, hashes))
    + Opt(FromKey(conf, s, "keyUsage", NID_key_usage, pubKey, hashes))
  }

  lemma FromKeyNid(conf: Conf, s: string, key: string, nid: int, pubKey: Option<Key>, hashes: map<Key, seq<byte>>)
    ensures forall k :: 0 <= k < |Opt(FromKey(conf, s, key, nid, pubKey, hashes))| ==>
      Opt(FromKey(conf, s, key, nid, pubKey, hashes))[k].nid == nid
    ensures |Opt(FromKey(conf, s, key, nid, pubKey, hashes))| <= 1
  {
  }

  lemma AddedSorted(conf: Conf, s: string, pubKey: Option<Key>, hashes: map<Key, seq<byte>>)
    ensures RankSorted(Added(conf, s, pubKey, hashes))
    ensures forall k :: 0 <= k < |Added(conf, s, pubKey, hashes)| ==>
      Added(conf, s, pubKey, hashes)[k].nid in {NID_basic_constraints, NID_subject_key_identifier, NID_key_usage}
  {
    var o1 := Opt(FromKey(conf, s, "basicConstraints", NID_basic_constraints, pubKey, hashes));
    var o2 := Opt(FromKey(conf, s, "subjectKeyIdentifier", NID_subject_key_identifier, pubKey, hashes));
    var o3 := Opt(FromKey(conf, s, "keyUsage", NID_key_usage, pubKey, hashes));
    FromKeyNid(conf, s, "basicConstraints", NID_basic_constraints, pubKey, hashes);
    FromKeyNid(conf, s, "subjectKeyIdentifier", NID_subject_key_identifier, pubKey, hashes);
    FromKeyNid(conf, s, "keyUsage", NID_key_usage, pubKey, hashes);
    var es := o1 + o2 + o3;
    forall a, b | 0 <= a < b < |es|
      ensures NidRank(es[a].nid) < NidRank(es[b].nid)
    {
      if a < |o1| {
        assert es[a] == o1[a];
      } else if a < |o1| + |o2| {
        assert es[a] == o2[a - |o1|];
        assert b >= |o1| + |o2| && es[b] == o3[b - |o1| - |o2|];
      } else {
        assert false;
      }
      if b < |o1| + |o2| {
        assert es[b] == o2[b - |o1|];
      } else {
        assert es[b] == o3[b - |o1| - |o2|];
      }
    }
    forall k | 0 <= k < |es|
      ensures es[k].nid in {NID_basic_constraints, NID_subject_key_identifier, NID_key_usage}
    {
      if k < |o1| {
        assert es[k] == o1[k];
      } else if k < |o1| + |o2| {
        assert es[k] == o2[k - |o1|];
      } else {
        assert es[k] == o3[k - |o1| - |o2|];
      }
    }
  }

  /** What an extensions section does to a document: it appends, in the
      order basicConstraints, subjectKeyIdentifier, keyUsage, the extensions
      that parse (at most one of each, never authorityKeyIdentifier), may add
      alt names, and changes nothing else. */
  lemma ExtensionsOrder(doc: Doc, conf: Conf, s: string, hashes: map<Key, seq<byte>>, ips: map<string, seq<byte>>)
    ensures var d := ExtensionsApplied(doc, conf, Some(s), hashes, ips);
      d.extensions == doc.extensions + Added(conf, s, doc.pubKey, hashes)
      && d == doc.(extensions := d.extensions, altNames := d.altNames)
    ensures RankSorted(Added(conf, s, doc.pubKey, hashes)) && |Added(conf, s, doc.pubKey, hashes)| <= 3
    ensures forall k :: 0 <= k < |Added(conf, s, doc.pubKey, hashes)| ==>
      Added(conf, s, doc.pubKey, hashes)[k].nid != NID_authority_key_identifier
  {
    AddedSorted(conf, s, doc.pubKey, hashes);
    AddedSize(conf, s, doc.pubKey, hashes);
    ExtensionsAdded(doc, conf, s, hashes);
  }

  lemma AddedSize(conf: Conf, s: string, pubKey: Option<Key>, hashes: map<Key, seq<byte>>)
    ensures |Added(conf, s, pubKey, hashes)| <= 3
  {
    FromKeyNid(conf, s, "basicConstraints", NID_basic_constraints, pubKey, hashes);
    FromKeyNid(conf, s, "subjectKeyIdentifier", NID_subject_key_identifier, pubKey, hashes);
    FromKeyNid(conf, s, "keyUsage", NID_key_usage, pubKey, hashes);
  }

  /** The four lookups of wolfCLU_setExtensions append Added and keep the
      rest of the document. */
  lemma ExtensionsAdded(doc: Doc, conf: Conf, s: string, hashes: map<Key, seq<byte>>)
    ensures var d1 := AddExtension(doc, FromKey(conf, s, "basicConstraints", NID_basic_constraints, doc.pubKey, hashes));
      var d2 := AddExtension(d1, FromKey(conf, s, "subjectKeyIdentifier", NID_subject_key_identifier, d1.pubKey, hashes));
      var d3 := AddExtension(d2, FromKey(conf, s, "authorityKeyIdentifier", NID_authority_key_identifier, d2.pubKey, hashes));
      var d4 := AddExtension(d3, FromKey(conf, s, "keyUsage", NID_key_usage, d3.pubKey, hashes));
      d4 == doc.(extensions := doc.extensions + Added(conf, s, doc.pubKey, hashes))
  {
    var o1 := Opt(FromKey(conf, s, "basicConstraints", NID_basic_constraints, doc.pubKey, hashes));
    var o2 := Opt(FromKey(conf, s, "subjectKeyIdentifier", NID_subject_key_identifier, doc.pubKey, hashes));
    var o3 := Opt(FromKey(conf, s, "keyUsage", NID_key_usage, doc.pubKey, hashes));
    assert FromKey(conf, s, "authorityKeyIdentifier", NID_authority_key_identifier, doc.pubKey, hashes).None?;
    AddExtensionOpt(doc, FromKey(conf, s, "basicConstraints", NID_basic_constraints, doc.pubKey, hashes));
    var d1 := doc.(extensions := doc.extensions + o1);
    AddExtensionOpt(d1, FromKey(conf, s, "subjectKeyIdentifier", NID_subject_key_identifier, doc.pubKey, hashes));
    var d2 := doc.(extensions := (doc.extensions + o1) + o2);
    AddExtensionOpt(d2, FromKey(conf, s, "keyUsage", NID_key_usage, doc.pubKey, hashes));
    AppendAssoc(doc.extensions, o1, o2, o3);
    Assoc(doc.extensions, o1, o2);
    Assoc(doc.extensions, o1 + o2, o3);
  }

  lemma AddExtensionOpt(doc: Doc, e: Option<Extension>)
    ensures AddExtension(doc, e) == doc.(extensions := doc.extensions + Opt(e))
    ensures AddExtension(doc, e).pubKey == doc.pubKey
  {
    if e.None? {
      assert doc.extensions + [] == doc.extensions;
    }
  }

  /** The alt names change only through a subjectAltName value that starts
      with '@'. */
  lemma AltNamesNeedAt(doc: Doc, conf: Conf, s: string, hashes: map<Key, seq<byte>>, ips: map<string, seq<byte>>)
    requires AltNameSection(Get(conf, s, "subjectAltName")).None?
    ensures ExtensionsApplied(doc, conf, Some(s), hashes, ips).altNames == doc.altNames
  {
  }

  /** A present basicConstraints value is the first extension added. */
  lemma BasicConstraintsFirst(doc: Doc, conf: Conf, s: string, v: string,
                              hashes: map<Key, seq<byte>>, ips: map<string, seq<byte>>)
    requires Get(conf, s, "basicConstraints") == Some(v)
    ensures ExtensionsApplied(doc, conf, Some(s), hashes, ips).extensions[|doc.extensions|]
      == BasicExt(v, IsCritical(v))
  {
    ExtensionsOrder(doc, conf, s, hashes, ips);
  }

  // ---------------------------------------------------------------------
  // Distinguished-name section
  // ---------------------------------------------------------------------

  /** The entry wolfCLU_X509addEntry adds for key, if the section has it. */
  function Entry(sec: Section, field: NameField, strType: StringType, key: string): seq<NameEntry> {
    if key in sec then [NameEntry(field, strType, sec[key])] else []
  }

  /** wolfCLU_X509addEntry: adds the entry and succeeds when the key is
      present, fails and adds nothing otherwise. */
  method X509AddEntry(name: seq<NameEntry>, conf: Conf, field: NameField, strType: StringType,
                      sect: string, key: string) returns (r: int, name': seq<NameEntry>)
    ensures name' == name + Entry(SectionOf(conf, sect), field, strType, key)
    ensures r == WOLFCLU_SUCCESS <==> key in SectionOf(conf, sect)
    ensures r == WOLFCLU_SUCCESS || r == WOLFCLU_FAILURE
  {
    var current := Get(conf, sect, key);
    if current.Some? {
      name' := name + [NameEntry(field, strType, current.value)];
      return WOLFCLU_SUCCESS, name';
    }
    return WOLFCLU_FAILURE, name;
  }

  /** The organisation names of the numbered keys, in order. */
  function OrgEntries(vs: seq<string>): seq<NameEntry> {
    if vs == [] then []
    else OrgEntries(vs[..|vs| - 1]) + [NameEntry(OrganizationName, Utf8, vs[|vs| - 1])]
  }

  lemma OrgEntriesSnoc(vs: seq<string>, v: string)
    ensures OrgEntries(vs + [v]) == OrgEntries(vs) + [NameEntry(OrganizationName, Utf8, v)]
  {
    assert (vs + [v])[..|vs|] == vs;
  }

  /** The subject wolfCLU_setDisNames builds, field by field: each field's
      "_default" key before its plain key, the numbered organisation names
      0, 1, ... after organizationName, and "CN" after commonName. */
  function CountryGroup(sec: Section): seq<NameEntry> {
    Entry(sec, CountryName, Printable, "countryName_default")
    + Entry(sec, CountryName, Printable, "countryName")
  }

  function StateGroup(sec: Section): seq<NameEntry> {
    Entry(sec, StateOrProvinceName, Utf8, "stateOrProvinceName_default")
    + Entry(sec, StateOrProvinceName, Utf8, "stateOrProvinceName")
  }

  function LocalityGroup(sec: Section): seq<NameEntry> {
    Entry(sec, LocalityName, Utf8, "localityName_default")
    + Entry(sec, LocalityName, Utf8, "localityName")
  }

  function OrgGroup(sec: Section): seq<NameEntry> {
    Entry(sec, OrganizationName, Utf8, "organizationName_default")
    + Entry(sec, OrganizationName, Utf8, "organizationName")
    + OrgEntries(Run(sec, OrgKeys, 0))
  }

  function UnitGroup(sec: Section): seq<NameEntry> {
    Entry(sec, OrganizationalUnitName, Utf8, "organizationalUnitName_default")
    + Entry(sec, OrganizationalUnitName, Utf8, "organizationalUnitName")
  }

  function CommonGroup(sec: Section): seq<NameEntry> {
    Entry(sec, CommonName, Utf8, "commonName_default")
    + Entry(sec, CommonName, Utf8, "commonName")
    + Entry(sec, CommonName, Utf8, "CN")
  }

  function EmailGroup(sec: Section): seq<NameEntry> {
    Entry(sec, EmailAddress, Utf8, "emailAddress_default")
    + Entry(sec, EmailAddress, Utf8, "emailAddress")
  }

  function DisName(sec: Section): seq<NameEntry> {
    CountryGroup(sec) + StateGroup(sec) + LocalityGroup(sec) + OrgGroup(sec)
    + UnitGroup(sec) + CommonGroup(sec) + EmailGroup(sec)
  }

  /** wolfCLU_setDisNames: the built name replaces the subject. */
  function DisNamesApplied(doc: Doc, conf: Conf, sect: Option<string>): Doc {
    if sect.None? then doc else doc.(subject := DisName(SectionOf(conf, sect.value)))
  }

  /** Two X509AddEntry calls in a row. */
  method AddTwo(name: seq<NameEntry>, conf: Conf, field: NameField, strType: StringType, sect: string,
                k1: string, k2: string) returns (name': seq<NameEntry>)
    ensures name' == name + (Entry(SectionOf(conf, sect), field, strType, k1)
                             + Entry(SectionOf(conf, sect), field, strType, k2))
  {
    var r;
    r, name' := X509AddEntry(name, conf, field, strType, sect, k1);
    r, name' := X509AddEntry(name', conf, field, strType, sect, k2);
    Assoc(name, Entry(SectionOf(conf, sect), field, strType, k1), Entry(SectionOf(conf, sect), field, strType, k2));
  }

  /** The numbered organisation names: `%d.organizationName` for 0, 1, ...
      while the entry is found. */
  method AddOrgEntries(name0: seq<NameEntry>, conf: Conf, sect: string) returns (name: seq<NameEntry>)
    ensures name == name0 + OrgEntries(Run(SectionOf(conf, sect), OrgKeys, 0))
  {
    ghost var sec := SectionOf(conf, sect);
    ghost var read: seq<string> := [];
    name := name0;
    var i := 0;
    while true
      invariant PresentFrom(sec, OrgKeys, 0, i)
      invariant read + RunFrom(sec, OrgKeys, 0, i) == Run(sec, OrgKeys, 0)
      invariant name == name0 + OrgEntries(read)
      decreases |sec.Keys| - i
    {
      var buf := KeyOf(OrgKeys, i);
      i := i + 1;
      var ret;
      ret, name := X509AddEntry(name, conf, OrganizationName, Utf8, sect, buf);
      if ret != WOLFCLU_SUCCESS {
        assert RunFrom(sec, OrgKeys, 0, i - 1) == [];
        assert read + [] == read;
        assert Entry(sec, OrganizationName, Utf8, buf) == [];
        assert name == name0 + OrgEntries(read) + [];
        break;
      }
      RunStep(sec, OrgKeys, 0, i - 1);
      PresentCount(sec, OrgKeys, 0, i);
      OrgEntriesSnoc(read, sec[buf]);
      Assoc(read, [sec[buf]], RunFrom(sec, OrgKeys, 0, i));
      Assoc(name0, OrgEntries(read), [NameEntry(OrganizationName, Utf8, sec[buf])]);
      read := read + [sec[buf]];
    }
  }

  /** The organisation field: its two keys, then the numbered ones. */
  method AddOrgGroup(name: seq<NameEntry>, conf: Conf, sect: string) returns (name': seq<NameEntry>)
    ensures name' == name + OrgGroup(SectionOf(conf, sect))
  {
    ghost var sec := SectionOf(conf, sect);
    name' := AddTwo(name, conf, OrganizationName, Utf8, sect, "organizationName_default", "organizationName");
    ghost var two := Entry(sec, OrganizationName, Utf8, "organizationName_default")
                     + Entry(sec, OrganizationName, Utf8, "organizationName");
    name' := AddOrgEntries(name', conf, sect);
    Assoc(name, two, OrgEntries(Run(sec, OrgKeys, 0)));
  }

  /** The common-name field: commonName_default, commonName, CN. */
  method AddCommonGroup(name: seq<NameEntry>, conf: Conf, sect: string) returns (name': seq<NameEntry>)
    ensures name' == name + CommonGroup(SectionOf(conf, sect))
  {
    ghost var sec := SectionOf(conf, sect);
    name' := AddTwo(name, conf, CommonName, Utf8, sect, "commonName_default", "commonName");
    var r;
    r, name' := X509AddEntry(name', conf, CommonName, Utf8, sect, "CN");
    Assoc(name, Entry(sec, CommonName, Utf8, "commonName_default") + Entry(sec, CommonName, Utf8, "commonName"),
          Entry(sec, CommonName, Utf8, "CN"));
  }

  /** wolfCLU_setDisNames. The countryName_min / _max numbers it reads are
      not used. */
  method SetDisNames(x509: Cert, conf: Conf, sect: Option<string>) returns (r: int)
    modifies x509
    ensures x509.doc == DisNamesApplied(old(x509.doc), conf, sect)
    ensures r == WOLFCLU_SUCCESS
  {
    if sect.None? {
      return WOLFCLU_SUCCESS;
    }
    var s := sect.value;
    ghost var sec := SectionOf(conf, s);
    var name := AddTwo([], conf, CountryName, Printable, s, "countryName_default", "countryName");
    assert name == CountryGroup(sec);
    name := AddTwo(name, conf, StateOrProvinceName, Utf8, s, "stateOrProvinceName_default", "stateOrProvinceName");
    name := AddTwo(name, conf, LocalityName, Utf8, s, "localityName_default", "localityName");
    name := AddOrgGroup(name, conf, s);
    name := AddTwo(name, conf, OrganizationalUnitName, Utf8, s, "organizationalUnitName_default", "organizationalUnitName");
    name := AddCommonGroup(name, conf, s);
    name := AddTwo(name, conf, EmailAddress, Utf8, s, "emailAddress_default", "emailAddress");
    x509.doc := x509.doc.(subject := name);
    r := WOLFCLU_SUCCESS;
  }

  /** Position of a field in the order setDisNames adds them. */
  function FieldRank(f: NameField): nat {
    match f
    case CountryName => 0
    case StateOrProvinceName => 1
    case LocalityName => 2
    case OrganizationName => 3
    case OrganizationalUnitName => 4
    case CommonName => 5
    case EmailAddress => 6
  }

  predicate FieldsSorted(es: seq<NameEntry>) {
    forall a, b :: 0 <= a < b < |es| ==> FieldRank(es[a].field) <= FieldRank(es[b].field)
  }

  predicate RanksAtMost(es: seq<NameEntry>, r: nat) {
    forall k :: 0 <= k < |es| ==> FieldRank(es[k].field) <= r
  }

  predicate AllOfField(es: seq<NameEntry>, f: NameField) {
    forall k :: 0 <= k < |es| ==> es[k].field == f
  }

  lemma AppendField(x: seq<NameEntry>, y: seq<NameEntry>, f: NameField)
    requires FieldsSorted(x) && RanksAtMost(x, FieldRank(f)) && AllOfField(y, f)
    ensures FieldsSorted(x + y) && RanksAtMost(x + y, FieldRank(f))
  {
    var z := x + y;
    forall a, b | 0 <= a < b < |z|
      ensures FieldRank(z[a].field) <= FieldRank(z[b].field)
    {
      if b < |x| {
        assert z[a] == x[a] && z[b] == x[b];
      } else if a < |x| {
        assert z[a] == x[a] && z[b] == y[b - |x|];
      } else {
        assert z[a] == y[a - |x|] && z[b] == y[b - |x|];
      }
    }
    forall k | 0 <= k < |z|
      ensures FieldRank(z[k].field) <= FieldRank(f)
    {
      if k < |x| {
        assert z[k] == x[k];
      } else {
        assert z[k] == y[k - |x|];
      }
    }
  }

  lemma FieldAppend(x: seq<NameEntry>, y: seq<NameEntry>, f: NameField)
    requires AllOfField(x, f) && AllOfField(y, f)
    ensures AllOfField(x + y, f)
  {
    forall k | 0 <= k < |x + y|
      ensures (x + y)[k].field == f
    {
      if k < |x| {
        assert (x + y)[k] == x[k];
      } else {
        assert (x + y)[k] == y[k - |x|];
      }
    }
  }

  lemma TwoOfField(sec: Section, f: NameField, t: StringType, k1: string, k2: string)
    ensures AllOfField(Entry(sec, f, t, k1) + Entry(sec, f, t, k2), f)
  {
    FieldAppend(Entry(sec, f, t, k1), Entry(sec, f, t, k2), f);
  }

  lemma {:induction false} OrgEntriesField(vs: seq<string>)
    ensures AllOfField(OrgEntries(vs), OrganizationName)
    decreases |vs|
  {
    if vs != [] {
      OrgEntriesField(vs[..|vs| - 1]);
      FieldAppend(OrgEntries(vs[..|vs| - 1]), [NameEntry(OrganizationName, Utf8, vs[|vs| - 1])], OrganizationName);
    }
  }

  lemma GroupFields(sec: Section)
    ensures AllOfField(CountryGroup(sec), CountryName)
    ensures AllOfField(StateGroup(sec), StateOrProvinceName)
    ensures AllOfField(LocalityGroup(sec), LocalityName)
    ensures AllOfField(OrgGroup(sec), OrganizationName)
    ensures AllOfField(UnitGroup(sec), OrganizationalUnitName)
    ensures AllOfField(CommonGroup(sec), CommonName)
    ensures AllOfField(EmailGroup(sec), EmailAddress)
  {
    TwoOfField(sec, CountryName, Printable, "countryName_default", "countryName");
    TwoOfField(sec, StateOrProvinceName, Utf8, "stateOrProvinceName_default", "stateOrProvinceName");
    TwoOfField(sec, LocalityName, Utf8, "localityName_default", "localityName");
    TwoOfField(sec, OrganizationName, Utf8, "organizationName_default", "organizationName");
    OrgEntriesField(Run(sec, OrgKeys, 0));
    FieldAppend(Entry(sec, OrganizationName, Utf8, "organizationName_default")
                + Entry(sec, OrganizationName, Utf8, "organizationName"),
                OrgEntries(Run(sec, OrgKeys, 0)), OrganizationName);
    TwoOfField(sec, OrganizationalUnitName, Utf8, "organizationalUnitName_default", "organizationalUnitName");
    TwoOfField(sec, CommonName, Utf8, "commonName_default", "commonName");
    FieldAppend(Entry(sec, CommonName, Utf8, "commonName_default") + Entry(sec, CommonName, Utf8, "commonName"),
                Entry(sec, CommonName, Utf8, "CN"), CommonName);
    TwoOfField(sec, EmailAddress, Utf8, "emailAddress_default", "emailAddress");
  }

  /** The subject lists its fields in the fixed order country, state,
      locality, organisation (with the numbered ones), unit, common name,
      e-mail address. */
  lemma DisNameOrdered(sec: Section)
    ensures FieldsSorted(DisName(sec))
  {
    GroupFields(sec);
    var g1, g2, g3, g4 := CountryGroup(sec), StateGroup(sec), LocalityGroup(sec), OrgGroup(sec);
    var g5, g6, g7 := UnitGroup(sec), CommonGroup(sec), EmailGroup(sec);
    AppendField([], g1, CountryName);
    assert [] + g1 == g1;
    AppendField(g1, g2, StateOrProvinceName);
    AppendField(g1 + g2, g3, LocalityName);
    AppendField(g1 + g2 + g3, g4, OrganizationName);
    AppendField(g1 + g2 + g3 + g4, g5, OrganizationalUnitName);
    AppendField(g1 + g2 + g3 + g4 + g5, g6, CommonName);
    AppendField(g1 + g2 + g3 + g4 + g5 + g6, g7, EmailAddress);
  }

  /** A field's "_default" value comes before its plain value: with both
      country keys present the subject starts with the default country, then
      the plain one. */
  lemma CountryDefaultFirst(sec: Section)
    requires "countryName_default" in sec && "countryName" in sec
    ensures DisName(sec)[0] == NameEntry(CountryName, Printable, sec["countryName_default"])
    ensures DisName(sec)[1] == NameEntry(CountryName, Printable, sec["countryName"])
  {
    assert |CountryGroup(sec)| == 2;
  }

  // ---------------------------------------------------------------------
  // The whole file
  // ---------------------------------------------------------------------

  /** wolfCLU_setAttributes: not implemented; it changes nothing and always
      fails. */
  method SetAttributes(x509: Cert, conf: Conf, sect: Option<string>) returns (r: int)
    ensures r == WOLFCLU_FAILURE
  {
    r := WOLFCLU_FAILURE;
  }

  /** The extensions section: the -extensions argument when given, else the
      request section's x509_extensions value. */
  function ExtensionsSection(conf: Conf, sect: string, ext: Option<string>): Option<string> {
    if ext.Some? then ext else Get(conf, sect, "x509_extensions")
  }

  /** wolfCLU_readConfig: attributes (no effect), then the extensions
      section, then the distinguished-name section. */
  function ConfigApplied(doc: Doc, conf: Conf, sect: string, ext: Option<string>,
                         hashes: map<Key, seq<byte>>, ips: map<string, seq<byte>>): Doc {
    DisNamesApplied(ExtensionsApplied(doc, conf, ExtensionsSection(conf, sect, ext), hashes, ips),
                    conf, Get(conf, sect, "distinguished_name"))
  }

  /** wolfCLU_readConfig. `loaded` is what wolfSSL_NCONF_load read from the
      file (a file that does not load leaves it empty); the result of every
      step is ignored. */
  method ReadConfig(x509: Cert, loaded: Conf, sect: string, ext: Option<string>,
                    hashes: map<Key, seq<byte>>, ips: map<string, seq<byte>>) returns (r: int)
    modifies x509
    ensures x509.doc == ConfigApplied(old(x509.doc), loaded, sect, ext, hashes, ips)
    ensures r == WOLFCLU_SUCCESS
  {
    var conf := loaded;
    var _ := SetAttributes(x509, conf, Get(conf, sect, "attributes"));
    if ext.None? {
      var _ := SetExtensions(x509, conf, Get(conf, sect, "x509_extensions"), hashes, ips);
    } else {
      var _ := SetExtensions(x509, conf, ext, hashes, ips);
    }
    var _ := SetDisNames(x509, conf, Get(conf, sect, "distinguished_name"));
    r := WOLFCLU_SUCCESS;
  }

  /** A configuration changes only the extensions, the alt names and the
      subject; with a distinguished-name section the subject is replaced
      whole, so the old subject does not matter. */
  lemma ConfigChanges(doc: Doc, conf: Conf, sect: string, ext: Option<string>,
                      hashes: map<Key, seq<byte>>, ips: map<string, seq<byte>>)
    ensures var d := ConfigApplied(doc, conf, sect, ext, hashes, ips);
      d == doc.(extensions := d.extensions, altNames := d.altNames, subject := d.subject)
    ensures var d := ConfigApplied(doc, conf, sect, ext, hashes, ips);
      d.subject == match Get(conf, sect, "distinguished_name")
                   case None => doc.subject
                   case Some(dn) => DisName(SectionOf(conf, dn))
  {
    var es := ExtensionsSection(conf, sect, ext);
    if es.Some? {
      ExtensionsOrder(doc, conf, es.value, hashes, ips);
    }
  }
}
