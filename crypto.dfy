/** wolfCLU_setup, the option handling of `-encrypt` and `-decrypt`: the
    getopt loop sets flags and fills the password, key and IV buffers, a
    series of checks follows, then the EVP or the legacy cipher routine is
    called and the buffers are cleared. wolfCLU_getAlgo, wolfCLU_hexToBin,
    the digest lookup, the cipher routines and the interactive prompts
    are inputs. */
module Crypto {
  import opened Common
  import opened Text
  import opened CommandLine

  /** What wolfCLU_getOpt returns for one option with `crypt_options`, and
      its argument (None for a null optarg). `-pwd` and `-k` both give
      Password; `-output` gives Lowered, as do the other codes of that
      group (inform, outform, noout, text, silent, pubin, pubout, pubkey),
      which `crypt_options` does not list. */
  datatype CryptOpt =
    | Password(arg: Option<string>)
    | Pbkdf2
    | Base64
    | NoSalt
    | KeyHex
    | Iv(arg: Option<string>)
    | SignOpt
    | VerifyOpt
    | Lowered(arg: Option<string>)
    | InFile(arg: Option<string>)
    | OutFile(arg: Option<string>)
    | InKey(arg: Option<string>)
    | SigFileOpt
    | DecryptOpt
    | Debug
    | Md(arg: Option<string>)
    | Other

  /** What wolfCLU_getAlgo finds in the algorithm name: the block size, the
      key size in bits, and whether wolfCLU_CipherTypeFromAlgo has an EVP
      cipher for it. None stands for a negative block size. */
  datatype Algo = Algo(block: nat, keySize: nat, evp: bool)

  /** The setup's scalar variables. `ret` is the variable of the same name,
      which the function returns when it neither encrypts nor decrypts. */
  datatype Flags = Flags(
    ret: int,
    pwdSet: bool, ivSet: bool, keySet: bool, inSet: bool, outSet: bool,
    enc: bool, dec: bool, inputHex: bool, keyType: int,
    verbose: bool, pbkVersion: int, base64: bool, noSalt: bool,
    input: Option<string>, out: Option<string>, md: string)

  /** Before the loop: the action letter sets encCheck or decCheck; the
      digest is SHA-256 and the PBKDF version 1. */
  function Start(action: char, helpRet: int): Flags {
    Flags(helpRet, false, false, false, false, false,
          action == 'e', action == 'd', false, 0, false, 1, false, false, None, None, "sha256")
  }

  /** XSTRNCPY(dst, s, n) over a C string `s`: the first n characters of
      `s`, padded with NUL characters to exactly n. */
  function PadCopy(s: string, n: nat): (r: seq<char>)
    ensures |r| == n
  {
    seq(n, i requires 0 <= i < n => if i < |s| then s[i] else '\0')
  }

  /** `buf` with its first characters replaced by `front`. */
  function Overwrite(buf: seq<char>, front: seq<char>): (r: seq<char>)
    ensures |r| == |buf|
  {
    seq(|buf|, i requires 0 <= i < |buf| => if i < |front| then front[i] else buf[i])
  }

  /** The state of the loop: the flags and the three buffers, or the value
      an option made the setup return. */
  datatype Scan =
    | Going(f: Flags, pwd: seq<char>, key: seq<byte>, iv: seq<byte>)
    | Stopped(ret: int)

  /** The options that only set flags (the others leave them alone). */
  function SetFlag(f: Flags, o: CryptOpt): Flags {
    match o
    case Pbkdf2 => f.(pbkVersion := 2)
    case Base64 => f.(base64 := true)
    case NoSalt => f.(noSalt := true)
    case VerifyOpt => f.(inputHex := true)
    case Lowered(a) => f.(input := if a.Some? then Some(ToLower(a.value)) else None, inSet := true)
    case InFile(a) => f.(input := a, inSet := true)
    case OutFile(a) => f.(out := a, outSet := true)
    case DecryptOpt => f.(enc := false, dec := true)
    case Debug => f.(verbose := true)
    case _ => f
  }

  /** One pass of the `switch` over an option. `hexToBin` is the decoding
      of wolfCLU_hexToBin (None when it fails), `digests` the names
      wolfSSL_EVP_get_digestbyname knows. */
  function Step(sc: Scan, o: CryptOpt, keySize: nat, hexToBin: string -> Option<seq<byte>>, digests: set<string>): Scan {
    match sc
    case Stopped(_) => sc
    case Going(f, pwd, key, iv) =>
      match o
      case Password(a) =>
        if a.None? then Stopped(WOLFCLU_FATAL_ERROR)
        else Going(f.(pwdSet := true, keyType := 1), Overwrite(pwd, PadCopy(a.value, keySize)), key, iv)
      case Iv(a) =>
        if a.None? || hexToBin(a.value).None? then Stopped(WOLFCLU_FATAL_ERROR)
        else Going(f.(ret := 0, ivSet := true), pwd, key, hexToBin(a.value).value)
      case InKey(a) =>
        if a.None? || |a.value| * 4 != keySize || hexToBin(a.value).None? then Stopped(WOLFCLU_FATAL_ERROR)
        else Going(f.(ret := 0, keySet := true, keyType := 2), pwd, hexToBin(a.value).value, iv)
      case Md(a) =>
        if a.None? || a.value !in digests then Stopped(WOLFCLU_FATAL_ERROR)
        else Going(f.(md := a.value), pwd, key, iv)
      case _ => Going(SetFlag(f, o), pwd, key, iv)
  }

  /** The loop over the first options, from the zeroed buffers. */
  function ScanAll(opts: seq<CryptOpt>, f0: Flags, a: Algo, hexToBin: string -> Option<seq<byte>>, digests: set<string>): Scan
    decreases |opts|
  {
    if opts == [] then Going(f0, seq(a.keySize + a.block, _ => '\0'), seq(a.keySize, _ => 0), seq(a.block, _ => 0))
    else Step(ScanAll(opts[..|opts| - 1], f0, a, hexToBin, digests), opts[|opts| - 1], a.keySize, hexToBin, digests)
  }

  /** The answers of the prompts that stand in for missing options: what
      wolfCLU_GetStdinPassword returns, the characters it writes at the
      front of pwdKey and the value it leaves in keySize (it is passed
      keySize's address), the word scanf reads for the input, and the
      output name (None when scanf hits end of input). */
  datatype Prompts = Prompts(pwdRet: int, typed: seq<char>, size: nat, input: string, out: Option<string>)

  /** The password prompt runs: an encryption with neither -pwd nor
      -inkey. */
  predicate Prompted(f: Flags) {
    !f.pwdSet && !f.keySet && !f.dec
  }

  /** pwdKey after the checks: the typed password at its front when the
      prompt ran. */
  function Prompt(f: Flags, pwd: seq<char>, p: Prompts): (r: seq<char>)
    ensures |r| == |pwd|
    ensures Prompted(f) ==> forall i :: 0 <= i < |pwd| && i < |p.typed| ==> r[i] == p.typed[i]
    ensures forall i :: 0 <= i < |pwd| && (!Prompted(f) || |p.typed| <= i) ==> r[i] == pwd[i]
  {
    if Prompted(f) then Overwrite(pwd, p.typed) else pwd
  }

  /** keySize after the checks: the size the prompt leaves in it, or the
      key size wolfCLU_getAlgo found. */
  function SizeAfter(f: Flags, a: Algo, p: Prompts): nat {
    if Prompted(f) then p.size else a.keySize
  }

  /** XMEMSET(buf, zero, n) inside the buffer: its first n places become
      `zero`, the others keep their values. */
  function Zeroed<T>(buf: seq<T>, n: nat, zero: T): (r: seq<T>)
    ensures |r| == |buf|
    ensures forall i :: 0 <= i < |buf| && i < n ==> r[i] == zero
    ensures forall i :: n <= i < |buf| ==> r[i] == buf[i]
  {
    seq(|buf|, i requires 0 <= i < |buf| => if i < n then zero else buf[i])
  }

  /** The arguments of the cipher routine the setup calls: the EVP routine
      when `evp`, otherwise wolfCLU_encrypt or wolfCLU_decrypt. */
  datatype CryptCall = CryptCall(
    evp: bool, encrypt: bool, pwd: seq<char>, key: seq<byte>, keyLen: int,
    input: Option<string>, out: Option<string>, iv: seq<byte>, ivSet: bool,
    inputHex: bool, keyType: int, pbkVersion: int, md: string,
    verbose: bool, base64: bool, noSalt: bool)

  /** What the setup returns, the routine it calls, and whether it reaches
      the final clearing of the buffers. */
  datatype Report = Report(ret: int, call: Option<CryptCall>, cleared: bool)

  /** The checks after the loop, in the order of the code. An encryption
      without -pwd or -inkey prompts for a password (`ret` becomes the
      prompt's result, pwdKey and keySize what it leaves), and one without
      -in prompts for the input. */
  function Finish(sc: Scan, a: Algo, p: Prompts, cryptRet: int): Report {
    match sc
    case Stopped(r) => Report(r, None, false)
    case Going(f, pwd, key, iv) =>
      if !f.pwdSet && !f.keySet && f.dec then Report(WOLFCLU_FATAL_ERROR, None, false)
      else
        var ret := if !f.pwdSet && !f.keySet then p.pwdRet else f.ret;
        var askInput := !f.inSet && f.enc;
        var input := if askInput then Some(p.input) else f.input;
        if f.enc && f.dec then Report(WOLFCLU_FATAL_ERROR, None, false)
        else if !(f.inSet || askInput) && f.dec then Report(WOLFCLU_FATAL_ERROR, None, false)
        else if f.ivSet && !f.keySet then Report(WOLFCLU_FATAL_ERROR, None, false)
        else if f.enc || f.dec then Report(cryptRet, Some(Call(f, input, Prompt(f, pwd, p), key, iv, a, p)), true)
        else Report(ret, None, true)
  }

  /** The call itself, with `input` the input name and `pwd` the password
      buffer after the prompts: the password is cleared when a key is also
      given, the EVP routine takes keySize in bytes and the legacy ones in
      bits, and a legacy call without -out prompts for the output name. */
  function Call(f: Flags, input: Option<string>, pwd: seq<char>, key: seq<byte>, iv: seq<byte>, a: Algo, p: Prompts): CryptCall {
    var pwd2 := if f.pwdSet && f.keySet then seq(|pwd|, _ => '\0') else pwd;
    var out := if !a.evp && !f.outSet then p.out else f.out;
    var keySize := SizeAfter(f, a, p);
    var keyLen := if a.evp then (keySize + 7) / 8 else keySize;
    CryptCall(a.evp, f.enc, pwd2, key, keyLen, input, out, iv, f.ivSet, f.inputHex, f.keyType,
              f.pbkVersion, f.md, f.verbose, f.base64, f.noSalt)
  }

  /** The whole setup: `-h` first, then the algorithm, the loop and the
      checks. */
  function Decide(line: ArgLine, action: char, algo: Option<Algo>, opts: seq<CryptOpt>,
                  hexToBin: string -> Option<seq<byte>>, digests: set<string>, p: Prompts, cryptRet: int): Report
  {
    if Present(line, "h") then Report(WOLFCLU_SUCCESS, None, false)
    else if algo.None? then Report(WOLFCLU_FATAL_ERROR, None, false)
    else Finish(ScanAll(opts, Start(action, Search(line, "h")), algo.value, hexToBin, digests), algo.value, p, cryptRet)
  }

  // ---------------------------------------------------------------------
  // The setup as code
  // ---------------------------------------------------------------------

  /** The three buffers of the setup, and keySize and block as the final
      clearing uses them. */
  datatype Held = Held(pwdKey: array<char>, key: array<byte>, iv: array<byte>, keySize: nat, block: nat)

  /** The copy of the hex argument for wolfCLU_hexToBin, terminated (see
      the corrected half of HexArgCopy). */
  method Decode(s: string, hexToBin: string -> Option<seq<byte>>) returns (r: Option<seq<byte>>)
    ensures r == hexToBin(s)
  {
    var buf := CopyArg(s);
    assert buf[..buf.Length - 1] == s;
    r := hexToBin(buf[..buf.Length - 1]);
  }

  /** The method's state is the one the scan describes: the value an
      option stopped it with, or the flags and the buffer contents. */
  predicate Agrees(sc: Scan, f: Flags, pwd: seq<char>, key: seq<byte>, iv: seq<byte>, stop: Option<int>) {
    match sc
    case Stopped(r) => stop == Some(r)
    case Going(f', pwd', key', iv') => stop == None && f == f' && pwd == pwd' && key == key' && iv == iv'
  }

  /** A new buffer holding `bs`, as wolfCLU_hexToBin hands it back. */
  method NewBytes(bs: seq<byte>) returns (a: array<byte>)
    ensures fresh(a) && a[..] == bs
  {
    a := new byte[|bs|](i requires 0 <= i < |bs| => bs[i]);
  }

  /** One pass of the `switch`: `pwdKey` is written in place, the key and
      the IV are replaced by the buffers wolfCLU_hexToBin returns. */
  method ApplyOpt(f: Flags, o: CryptOpt, keySize: nat, pwdKey: array<char>, key: array<byte>, iv: array<byte>,
                  hexToBin: string -> Option<seq<byte>>, digests: set<string>)
    returns (g: Flags, key2: array<byte>, iv2: array<byte>, stop: Option<int>)
    requires key != iv
    modifies pwdKey
    ensures key2 != iv2
    ensures key2 == key || fresh(key2)
    ensures iv2 == iv || fresh(iv2)
    ensures Agrees(Step(Going(f, old(pwdKey[..]), key[..], iv[..]), o, keySize, hexToBin, digests),
                   g, pwdKey[..], key2[..], iv2[..], stop)
  {
    g, key2, iv2, stop := f, key, iv, None;
    match o
    case Password(a) =>
      if a.None? {
        return g, key2, iv2, Some(WOLFCLU_FATAL_ERROR);
      }
      var copy := PadCopy(a.value, keySize);
      forall i | 0 <= i < pwdKey.Length && i < keySize {
        pwdKey[i] := copy[i];
      }
      g := f.(pwdSet := true, keyType := 1);
    case Iv(a) =>
      if a.None? {
        return g, key2, iv2, Some(WOLFCLU_FATAL_ERROR);
      }
      var bytes := Decode(a.value, hexToBin);
      if bytes.None? {
        return g, key2, iv2, Some(WOLFCLU_FATAL_ERROR);
      }
      iv2 := NewBytes(bytes.value);
      g := f.(ret := 0, ivSet := true);
    case InKey(a) =>
      if a.None? || |a.value| * 4 != keySize {
        return g, key2, iv2, Some(WOLFCLU_FATAL_ERROR);
      }
      var bytes := Decode(a.value, hexToBin);
      if bytes.None? {
        return g, key2, iv2, Some(WOLFCLU_FATAL_ERROR);
      }
      key2 := NewBytes(bytes.value);
      g := f.(ret := 0, keySet := true, keyType := 2);
    case Md(a) =>
      if a.None? || a.value !in digests {
        return g, key2, iv2, Some(WOLFCLU_FATAL_ERROR);
      }
      g := f.(md := a.value);
    case _ => g := SetFlag(f, o);
  }

  /** The option loop: on return either an option stopped the setup with
      `stop`, or the flags and buffers are those of the whole scan. */
  method ScanOptions(f0: Flags, opts: seq<CryptOpt>, a: Algo, pwdKey: array<char>, key0: array<byte>, iv0: array<byte>,
                     hexToBin: string -> Option<seq<byte>>, digests: set<string>)
    returns (f: Flags, key: array<byte>, iv: array<byte>, stop: Option<int>)
    requires key0 != iv0
    requires ScanAll([], f0, a, hexToBin, digests) == Going(f0, pwdKey[..], key0[..], iv0[..])
    modifies pwdKey
    ensures key != iv
    ensures key == key0 || fresh(key)
    ensures iv == iv0 || fresh(iv)
    ensures Agrees(ScanAll(opts, f0, a, hexToBin, digests), f, pwdKey[..], key[..], iv[..], stop)
  {
    f, key, iv, stop := f0, key0, iv0, None;
    var i := 0;
    while i < |opts|
      invariant 0 <= i <= |opts|
      invariant key != iv && stop == None
      invariant key == key0 || fresh(key)
      invariant iv == iv0 || fresh(iv)
      invariant ScanAll(opts[..i], f0, a, hexToBin, digests) == Going(f, pwdKey[..], key[..], iv[..])
    {
      assert opts[..i + 1][..i] == opts[..i];
      ghost var next := Step(Going(f, pwdKey[..], key[..], iv[..]), opts[i], a.keySize, hexToBin, digests);
      assert ScanAll(opts[..i + 1], f0, a, hexToBin, digests) == next;
      f, key, iv, stop := ApplyOpt(f, opts[i], a.keySize, pwdKey, key, iv, hexToBin, digests);
      if stop.Some? {
        assert next.Stopped? && stop == Some(next.ret);
        StoppedStays(opts, i + 1, f0, a, hexToBin, digests);
        return;
      }
      i := i + 1;
    }
    assert opts[..i] == opts;
    assert ScanAll(opts, f0, a, hexToBin, digests) == Going(f, pwdKey[..], key[..], iv[..]);
  }

  /** Once an option stops the setup, the later ones change nothing. */
  lemma {:induction false} StoppedStays(opts: seq<CryptOpt>, k: nat, f0: Flags, a: Algo,
                                        hexToBin: string -> Option<seq<byte>>, digests: set<string>)
    requires 0 < k <= |opts| && ScanAll(opts[..k], f0, a, hexToBin, digests).Stopped?
    ensures ScanAll(opts, f0, a, hexToBin, digests) == ScanAll(opts[..k], f0, a, hexToBin, digests)
    decreases |opts| - k
  {
    if k < |opts| {
      assert opts[..k + 1][..k] == opts[..k];
      StoppedStays(opts, k + 1, f0, a, hexToBin, digests);
    } else {
      assert opts[..k] == opts;
    }
  }

  /** The call, after clearing the password when a key is also given;
      `keySize` is the variable after the prompt. */
  method Invoke(f: Flags, input: Option<string>, pwdKey: array<char>, key: array<byte>, iv: array<byte>,
                a: Algo, p: Prompts, cryptRet: int, keySize: nat)
    returns (ret: int, call: Option<CryptCall>)
    requires f.enc || f.dec
    requires keySize == SizeAfter(f, a, p)
    modifies pwdKey
    ensures ret == cryptRet && call == Some(Call(f, input, old(pwdKey[..]), key[..], iv[..], a, p))
    ensures pwdKey[..] == if f.pwdSet && f.keySet then seq(pwdKey.Length, _ => '\0') else old(pwdKey[..])
  {
    if f.pwdSet && f.keySet {
      forall i | 0 <= i < pwdKey.Length {
        pwdKey[i] := '\0';
      }
      assert pwdKey[..] == seq(pwdKey.Length, _ => '\0');
    }
    var out := if !a.evp && !f.outSet then p.out else f.out;
    var keyLen := if a.evp then (keySize + 7) / 8 else keySize;
    call := Some(CryptCall(a.evp, f.enc, pwdKey[..], key[..], keyLen, input, out, iv[..], f.ivSet,
                           f.inputHex, f.keyType, f.pbkVersion, f.md, f.verbose, f.base64, f.noSalt));
    ret := cryptRet;
  }

  /** XMEMSET of keySize places of the key, keySize + block of the
      password and block of the IV before they are freed. */
  method Clear(pwdKey: array<char>, key: array<byte>, iv: array<byte>, keySize: nat, block: nat)
    requires key != iv
    modifies pwdKey, key, iv
    ensures pwdKey[..] == Zeroed(old(pwdKey[..]), keySize + block, '\0')
    ensures key[..] == Zeroed(old(key[..]), keySize, 0)
    ensures iv[..] == Zeroed(old(iv[..]), block, 0)
  {
    forall i | 0 <= i < key.Length && i < keySize {
      key[i] := 0;
    }
    forall i | 0 <= i < pwdKey.Length && i < keySize + block {
      pwdKey[i] := '\0';
    }
    forall i | 0 <= i < iv.Length && i < block {
      iv[i] := 0;
    }
  }

  /** The checks after the loop, the call, and the clearing of the three
      buffers at the end. */
  method Checks(f: Flags, pwdKey: array<char>, key: array<byte>, iv: array<byte>, a: Algo, p: Prompts, cryptRet: int)
    returns (ret: int, call: Option<CryptCall>, cleared: bool)
    requires key != iv && pwdKey.Length == a.keySize + a.block
    modifies pwdKey, key, iv
    ensures Report(ret, call, cleared) == Finish(Going(f, old(pwdKey[..]), old(key[..]), old(iv[..])), a, p, cryptRet)
    ensures cleared ==> pwdKey[..] == Zeroed(Prompt(f, old(pwdKey[..]), p), SizeAfter(f, a, p) + a.block, '\0')
    ensures cleared ==> key[..] == Zeroed(old(key[..]), SizeAfter(f, a, p), 0)
    ensures cleared ==> iv[..] == Zeroed(old(iv[..]), a.block, 0)
  {
    call, cleared := None, false;
    ret := f.ret;
    var keySize := a.keySize;
    var pwdSet, inSet, input := f.pwdSet, f.inSet, f.input;
    if !pwdSet && !f.keySet {
      if f.dec {
        return WOLFCLU_FATAL_ERROR, call, cleared;
      }
      forall i | 0 <= i < pwdKey.Length && i < |p.typed| {
        pwdKey[i] := p.typed[i];
      }
      keySize := p.size;
      ret := p.pwdRet;
      pwdSet := true;
    }
    assert pwdKey[..] == Prompt(f, old(pwdKey[..]), p);
    if !inSet && f.enc {
      input := Some(p.input);
      inSet := true;
    }
    if f.enc && f.dec {
      return WOLFCLU_FATAL_ERROR, call, cleared;
    }
    if !inSet && f.dec {
      return WOLFCLU_FATAL_ERROR, call, cleared;
    }
    if f.ivSet && !f.keySet {
      return WOLFCLU_FATAL_ERROR, call, cleared;
    }
    assert key[..] == old(key[..]) && iv[..] == old(iv[..]);
    if f.enc || f.dec {
      ret, call := Invoke(f, input, pwdKey, key, iv, a, p, cryptRet, keySize);
    }
    Clear(pwdKey, key, iv, keySize, a.block);
    cleared := true;
  }

  /** wolfCLU_setup with the hex arguments copied with their terminator.
      `cleared` holds the three buffers when the setup reaches the end of
      the function, where it clears them. */
  method CryptSetup(line: ArgLine, action: char, algo: Option<Algo>, opts: seq<CryptOpt>,
                    hexToBin: string -> Option<seq<byte>>, digests: set<string>, p: Prompts, cryptRet: int)
    returns (ret: int, call: Option<CryptCall>, cleared: Option<Held>)
    ensures Report(ret, call, cleared.Some?) == Decide(line, action, algo, opts, hexToBin, digests, p, cryptRet)
    ensures cleared.Some? ==> algo.Some? && cleared.value.block == algo.value.block
    ensures cleared.Some? ==> cleared.value.keySize == algo.value.keySize || cleared.value.keySize == p.size
    ensures cleared.Some? && |p.typed| <= p.size ==>
      forall i :: 0 <= i < cleared.value.pwdKey.Length ==> cleared.value.pwdKey[i] == '\0'
    ensures cleared.Some? ==>
      forall i :: 0 <= i < cleared.value.key.Length && i < cleared.value.keySize ==> cleared.value.key[i] == 0
    ensures cleared.Some? ==>
      forall i :: 0 <= i < cleared.value.iv.Length && i < cleared.value.block ==> cleared.value.iv[i] == 0
  {
    call, cleared := None, None;
    ret := Search(line, "h");
    if ret > 0 {
      return WOLFCLU_SUCCESS, call, cleared;
    }
    if algo.None? {
      return WOLFCLU_FATAL_ERROR, call, cleared;
    }
    var a := algo.value;
    var pwdKey := new char[a.keySize + a.block](_ => '\0');
    var iv := new byte[a.block](_ => 0);
    var key := new byte[a.keySize](_ => 0);
    var f0 := Start(action, ret);
    assert pwdKey[..] == seq(a.keySize + a.block, _ => '\0');
    assert key[..] == seq(a.keySize, _ => 0);
    assert iv[..] == seq(a.block, _ => 0);
    var f, stop;
    f, key, iv, stop := ScanOptions(f0, opts, a, pwdKey, key, iv, hexToBin, digests);
    if stop.Some? {
      return stop.value, call, cleared;
    }
    StartConsistent(action, ret, a);
    ScanConsistent(opts, f0, a, hexToBin, digests);
    ghost var scanned := pwdKey[..];
    var done;
    ret, call, done := Checks(f, pwdKey, key, iv, a, p, cryptRet);
    if done {
      if |p.typed| <= p.size {
        PasswordWiped(f, scanned, a, p);
      }
      cleared := Some(Held(pwdKey, key, iv, SizeAfter(f, a, p), a.block));
    }
  }

  // ---------------------------------------------------------------------
  // The hex copies as written
  // ---------------------------------------------------------------------

  /** The copy the code makes of an -iv or -inkey argument for
      wolfCLU_hexToBin: XMALLOC(strlen(s)) and XSTRNCPY of strlen(s)
      characters, so no NUL ends it inside its allocation. */
  method HexArgCopy(s: string) returns (buf: array<char>)
    ensures buf.Length == |s| && buf[..] == s
    ensures CStr(s) ==> forall i :: 0 <= i < buf.Length ==> buf[i] != '\0'
  {
    buf := new char[|s|];
    var i := 0;
    while i < |s|
      invariant 0 <= i <= |s|
      invariant forall k :: 0 <= k < i ==> buf[k] == s[k]
    {
      buf[i] := s[i];
      i := i + 1;
    }
    assert buf[..] == s;
  }

  /** The copy Decode makes instead ends with its NUL inside the buffer, so
      the hex string hexToBin reads is exactly the argument. */
  lemma TerminatedCopy(s: string)
    requires CStr(s)
    ensures IndexOf(CString(s), '\0') == |s|
    ensures CString(s)[..|s|] == s
  {
    var k := IndexOf(CString(s), '\0');
    assert CString(s)[|s|] == '\0';
  }

  // ---------------------------------------------------------------------
  // Properties of the options
  // ---------------------------------------------------------------------

  /** -inkey: the key is taken only when its hex length times four is the
      algorithm's key size and it decodes; it then replaces the key buffer
      and selects the user key (keyType 2). */
  lemma InKeyRule(f: Flags, pwd: seq<char>, key: seq<byte>, iv: seq<byte>, s: string, keySize: nat,
                  hexToBin: string -> Option<seq<byte>>, digests: set<string>)
    ensures var r := Step(Going(f, pwd, key, iv), InKey(Some(s)), keySize, hexToBin, digests);
      && (r.Going? <==> |s| * 4 == keySize && hexToBin(s).Some?)
      && (r.Stopped? ==> r.ret == WOLFCLU_FATAL_ERROR)
      && (r.Going? ==> r.f.keySet && r.f.keyType == 2 && r.key == hexToBin(s).value)
      && (r.Going? ==> r.pwd == pwd && r.iv == iv && r.f.pwdSet == f.pwdSet)
  {
  }

  /** -pwd and -k: at most keySize characters of the password are copied,
      the rest of those keySize places are NUL, the block after them is
      untouched, and the password key (keyType 1) is selected. */
  lemma PasswordRule(f: Flags, pwd: seq<char>, key: seq<byte>, iv: seq<byte>, s: string, keySize: nat,
                     hexToBin: string -> Option<seq<byte>>, digests: set<string>)
    requires keySize <= |pwd|
    ensures var r := Step(Going(f, pwd, key, iv), Password(Some(s)), keySize, hexToBin, digests);
      && r.Going? && r.f.pwdSet && r.f.keyType == 1
      && |r.pwd| == |pwd| && r.pwd[keySize..] == pwd[keySize..]
      && (forall i :: 0 <= i < keySize && i < |s| ==> r.pwd[i] == s[i])
      && (forall i :: |s| <= i < keySize ==> r.pwd[i] == '\0')
      && r.key == key && r.iv == iv
  {
  }

  /** -output and the options grouped with it: the argument is lower-cased
      and then taken as the input name, as -in takes it. */
  lemma LoweredFallsThrough(f: Flags, pwd: seq<char>, key: seq<byte>, iv: seq<byte>, s: string, keySize: nat,
                            hexToBin: string -> Option<seq<byte>>, digests: set<string>)
    ensures var r := Step(Going(f, pwd, key, iv), Lowered(Some(s)), keySize, hexToBin, digests);
      && r == Step(Going(f, pwd, key, iv), InFile(Some(ToLower(s))), keySize, hexToBin, digests)
      && r.Going? && r.f.inSet && r.f.input == Some(ToLower(s))
      && |r.f.input.value| == |s| && forall j :: 0 <= j < |s| ==> !('A' <= r.f.input.value[j] <= 'Z')
  {
  }

  /** What the options keep true of the flags: the buffers keep their
      sizes apart from the key and IV that hexToBin replaces, and keyType
      names a key that was given. */
  predicate Consistent(sc: Scan, a: Algo) {
    sc.Going? ==>
      && |sc.pwd| == a.keySize + a.block
      && (!sc.f.pwdSet ==> forall i :: 0 <= i < |sc.pwd| ==> sc.pwd[i] == '\0')
      && (sc.f.keyType == 1 ==> sc.f.pwdSet)
      && (sc.f.keyType == 2 ==> sc.f.keySet)
      && (sc.f.pwdSet || sc.f.keySet <==> sc.f.keyType != 0)
      && 0 <= sc.f.keyType <= 2
      && !(sc.f.enc && sc.f.dec)
  }

  /** Every option keeps the flags consistent. */
  lemma {:induction false} ScanConsistent(opts: seq<CryptOpt>, f0: Flags, a: Algo,
                                          hexToBin: string -> Option<seq<byte>>, digests: set<string>)
    requires !f0.pwdSet && !f0.keySet && f0.keyType == 0 && !(f0.enc && f0.dec)
    ensures Consistent(ScanAll(opts, f0, a, hexToBin, digests), a)
    decreases |opts|
  {
    if opts != [] {
      ScanConsistent(opts[..|opts| - 1], f0, a, hexToBin, digests);
      StepConsistent(ScanAll(opts[..|opts| - 1], f0, a, hexToBin, digests), opts[|opts| - 1], a, hexToBin, digests);
    }
  }

  /** One option keeps the flags consistent. */
  lemma StepConsistent(sc: Scan, o: CryptOpt, a: Algo, hexToBin: string -> Option<seq<byte>>, digests: set<string>)
    requires Consistent(sc, a)
    ensures Consistent(Step(sc, o, a.keySize, hexToBin, digests), a)
  {
    if sc.Going? {
      match o {
        case Password(_) =>
        case Iv(_) =>
        case InKey(_) =>
        case Lowered(_) =>
        case InFile(_) =>
        case OutFile(_) =>
        case Md(_) =>
        case DecryptOpt =>
        case _ =>
      }
    }
  }

  /** One option after -d: decryption stays selected. */
  lemma StepKeepsDecrypt(sc: Scan, o: CryptOpt, keySize: nat, hexToBin: string -> Option<seq<byte>>, digests: set<string>)
    requires sc.Going? ==> sc.f.dec && !sc.f.enc
    ensures var r := Step(sc, o, keySize, hexToBin, digests);
      r.Going? ==> r.f.dec && !r.f.enc
  {
    if sc.Going? {
      match o {
        case Password(_) =>
        case Iv(_) =>
        case InKey(_) =>
        case Lowered(_) =>
        case InFile(_) =>
        case OutFile(_) =>
        case Md(_) =>
        case _ =>
      }
    }
  }

  /** The flags the setup starts from: encryption or decryption, never both,
      and no key. */
  lemma StartConsistent(action: char, helpRet: int, a: Algo)
    ensures var f := Start(action, helpRet);
      && !f.pwdSet && !f.keySet && f.keyType == 0 && !(f.enc && f.dec)
      && (action == 'e' ==> f.enc) && (action == 'd' ==> f.dec)
  {
  }

  /** -d anywhere among the options forces decryption: no later option
      sets the encrypt flag again. */
  lemma {:induction false} DashDForcesDecrypt(opts: seq<CryptOpt>, k: nat, f0: Flags, a: Algo,
                                              hexToBin: string -> Option<seq<byte>>, digests: set<string>)
    requires k < |opts| && opts[k] == DecryptOpt
    ensures var sc := ScanAll(opts, f0, a, hexToBin, digests);
      sc.Going? ==> sc.f.dec && !sc.f.enc
    decreases |opts|
  {
    var init := opts[..|opts| - 1];
    if k < |opts| - 1 {
      assert init[k] == DecryptOpt;
      DashDForcesDecrypt(init, k, f0, a, hexToBin, digests);
      StepKeepsDecrypt(ScanAll(init, f0, a, hexToBin, digests), opts[|opts| - 1], a.keySize, hexToBin, digests);
    }
  }

  // ---------------------------------------------------------------------
  // Properties of the checks and the call
  // ---------------------------------------------------------------------

  /** The checks Finish makes before it calls the cipher routine. */
  lemma FinishCall(f: Flags, pwd: seq<char>, key: seq<byte>, iv: seq<byte>, a: Algo, p: Prompts, cryptRet: int)
    ensures var r := Finish(Going(f, pwd, key, iv), a, p, cryptRet);
      r.call.Some? ==>
        && r.ret == cryptRet
        && r.call.value == Call(f, if !f.inSet && f.enc then Some(p.input) else f.input, Prompt(f, pwd, p), key, iv, a, p)
        && (f.pwdSet || f.keySet || !f.dec)
        && !(f.ivSet && !f.keySet)
        && (f.enc || f.dec)
  {
  }

  /** Decryption needs a password or a key: without either it is fatal,
      and every decryption call is made with one of them. */
  lemma DecryptNeedsSecret(f: Flags, pwd: seq<char>, key: seq<byte>, iv: seq<byte>, a: Algo, p: Prompts, cryptRet: int)
    ensures var r := Finish(Going(f, pwd, key, iv), a, p, cryptRet);
      && (f.dec && !f.pwdSet && !f.keySet ==> r == Report(WOLFCLU_FATAL_ERROR, None, false))
      && (r.call.Some? && !r.call.value.encrypt ==> f.pwdSet || f.keySet)
  {
    FinishCall(f, pwd, key, iv, a, p, cryptRet);
  }

  /** An explicit IV needs an explicit key: -iv without -inkey is fatal,
      and every call with an IV set has a key. */
  lemma IvNeedsKey(f: Flags, pwd: seq<char>, key: seq<byte>, iv: seq<byte>, a: Algo, p: Prompts, cryptRet: int)
    ensures var r := Finish(Going(f, pwd, key, iv), a, p, cryptRet);
      && (f.ivSet && !f.keySet ==> r.call == None && r.ret == WOLFCLU_FATAL_ERROR)
      && (r.call.Some? && r.call.value.ivSet ==> f.keySet && r.call.value.iv == iv)
  {
    FinishCall(f, pwd, key, iv, a, p, cryptRet);
  }

  /** With both a password and a key, the cipher routine sees the password
      buffer cleared; with no key it sees the password as given, or, when
      neither was given, the typed password at the front of the buffer. */
  lemma PasswordClearedWithKey(f: Flags, pwd: seq<char>, key: seq<byte>, iv: seq<byte>, a: Algo, p: Prompts, cryptRet: int)
    ensures var r := Finish(Going(f, pwd, key, iv), a, p, cryptRet);
      && (r.call.Some? ==> |r.call.value.pwd| == |pwd| && r.call.value.key == key)
      && (r.call.Some? && f.pwdSet && f.keySet ==> forall i :: 0 <= i < |pwd| ==> r.call.value.pwd[i] == '\0')
      && (r.call.Some? && !f.keySet && f.pwdSet ==> r.call.value.pwd == pwd)
      && (r.call.Some? && !f.keySet && !f.pwdSet ==>
            (forall i :: 0 <= i < |pwd| && i < |p.typed| ==> r.call.value.pwd[i] == p.typed[i])
            && (forall i :: |p.typed| <= i < |pwd| ==> r.call.value.pwd[i] == pwd[i]))
  {
    FinishCall(f, pwd, key, iv, a, p, cryptRet);
  }
  /** The final clearing wipes the whole password buffer: a -pwd password
      lies in its first keySize places, and a typed one in the places the
      size the prompt leaves covers, the places after it being still zero
      (the prompt runs only when no -pwd wrote them). */
  lemma PasswordWiped(f: Flags, pwd: seq<char>, a: Algo, p: Prompts)
    requires |pwd| == a.keySize + a.block
    requires !f.pwdSet ==> forall i :: 0 <= i < |pwd| ==> pwd[i] == '\0'
    requires |p.typed| <= p.size
    ensures var w := Zeroed(Prompt(f, pwd, p), SizeAfter(f, a, p) + a.block, '\0');
      forall i :: 0 <= i < |w| ==> w[i] == '\0'
  {
  }


  /** (n + 7) / 8 is the fewest whole bytes that hold n bits. */
  lemma BytesForBits(n: nat)
    ensures ((n + 7) / 8) * 8 >= n && ((n + 7) / 8 - 1) * 8 < n
  {
  }

  /** The EVP routine gets the key length in whole bytes, the fewest that
      hold keySize bits; the legacy routines get keySize in bits. keySize
      is the algorithm's, or the size the password prompt left when it
      ran. */
  lemma KeyLengthInBytes(f: Flags, pwd: seq<char>, key: seq<byte>, iv: seq<byte>, a: Algo, p: Prompts, cryptRet: int)
    ensures var r := Finish(Going(f, pwd, key, iv), a, p, cryptRet);
      var n := if !f.pwdSet && !f.keySet then p.size else a.keySize;
      && (r.call.Some? && a.evp ==> r.call.value.keyLen * 8 >= n && (r.call.value.keyLen - 1) * 8 < n)
      && (r.call.Some? && !a.evp ==> r.call.value.keyLen == n)
  {
    FinishCall(f, pwd, key, iv, a, p, cryptRet);
    BytesForBits(SizeAfter(f, a, p));
  }
  /** An encryption given only -in prompts for the password: the routine
      gets the typed password at the front of pwdKey and the key length
      from the size the prompt left, here one character and one byte. */
  lemma PromptedEncryption(hexToBin: string -> Option<seq<byte>>, digests: set<string>)
    ensures var r := Decide(ArgLine([], map[]), 'e', Some(Algo(16, 128, true)), [InFile(Some("f"))],
                            hexToBin, digests, Prompts(WOLFCLU_SUCCESS, "x", 1, "in", None), 7);
      && r.ret == 7 && r.call.Some? && r.call.value.encrypt
      && |r.call.value.pwd| == 144 && r.call.value.pwd[0] == 'x' && r.call.value.pwd[1] == '\0'
      && r.call.value.keyLen == 1 && r.call.value.input == Some("f")
  {
  }


  /** A decryption that gets to the call goes through the routine with the
      flags of -d: the call and the key type it is told to use. */
  lemma DecryptCall(line: ArgLine, action: char, a: Algo, opts: seq<CryptOpt>, k: nat,
                    hexToBin: string -> Option<seq<byte>>, digests: set<string>, p: Prompts, cryptRet: int)
    requires k < |opts| && opts[k] == DecryptOpt
    ensures var r := Decide(line, action, Some(a), opts, hexToBin, digests, p, cryptRet);
      r.call.Some? ==> !r.call.value.encrypt && 1 <= r.call.value.keyType <= 2
  {
    var f0 := Start(action, Search(line, "h"));
    StartConsistent(action, Search(line, "h"), a);
    ScanConsistent(opts, f0, a, hexToBin, digests);
    DashDForcesDecrypt(opts, k, f0, a, hexToBin, digests);
  }
}
