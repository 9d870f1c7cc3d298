# wolfCLU command-line core, modelled in Dafny

This project models the decision and parsing logic of wolfCLU, the wolfSSL
command-line tool. That logic sits between the command line and the wolfSSL
library. The model covers:

- `main` (src/clu_main.c): the mode table looked up by `getMode`, the choice between a
  mode word and a dashed option, the dispatch switch, and the normalisation of
  the result into an exit status (module `CluMain`).
- `req` (src/x509/clu_request_setup.c): the `wolfCLU_requestSetup` pipeline as
  guarded stages over the x509 document, the key, the re-sign flag and the output BIO
  (modules `Request`, `RequestRules`). The module `RequestPrint` holds the text printer
  `wolfSSL_X509_REQ_print` and its helpers: version, serial,
  subject, public key, extensions and the 18-bytes-per-line signature dump.
- The config file (src/x509/clu_config.c): the keyUsage parser and printer
  (module `KeyUsage`), basicConstraints, subjectKeyIdentifier, the word
  "critical", the numbered `DNS.i` / `IP.i` alternative names, the
  distinguished name, `wolfCLU_readConfig` and the key-type mapping
  (module `Config`).
- `x509` (src/x509/clu_cert_setup.c): the option checks, the decoding of the
  input, the fixed order of the printed sections and their text, and the
  final encoding (module `CertSetup`).
- The validation tables of the remaining setups: `hash` (module `Hash`), `enc` / `dec`
  (module `Crypto`), `-rsa` / `-ecc` / `-ed25519` sign and verify (module `SignVerify`),
  and `s_client` (module `Client`).

Every wolfSSL call is an input fixed in advance. These inputs are maps of
decoded files, sets of files that open, results of signing, hashing and
encoding calls, and the current time. The modules
`Common`, `Text`, `Document`, `Output` and `CommandLine` hold what they
share:

- the return codes;
- C string helpers (`strncmp`, `strstr`, `strtok_r`, `atoi`, `%d`, `%02x`);
- the X.509 document as a record of its fields;
- the command line as argv plus the answers of `wolfCLU_checkForArg`. Each
  setup demands a value after exactly the options whose `argv[ret+1]` it reads;
  flags such as `-text`, `-noout` or `-help` may end the line.

An output BIO is a `Sink`: an object holding the chunks written so far and
the number of writes it still accepts. A printer is specified by its plan, a
list of writes, each checked or unchecked. `Perform` states what a sink
receives from a plan, and which code the printer returns, when the sink runs
out of room at any point.

The numeric values of wolfCLU's return codes are defined in a header that
this model does not include. `main` turns every result `<= 0` into a fatal
error and exits 0 only on success, so the model sets
WOLFCLU_SUCCESS = WOLFSSL_SUCCESS = 1 and WOLFCLU_FAILURE = WOLFSSL_FAILURE = 0.
The errors are distinct negatives: WOLFCLU_FATAL_ERROR = -1,
USER_INPUT_ERROR = -1001, INPUT_FILE_ERROR = -1002, MEMORY_E = -125.

Where the code does something its authors evidently did not intend, the
model keeps the code as written in a member named `AsWritten...` and proves
what goes wrong (see "## Findings"). The rest of the model uses the corrected
behaviour.

## Model

| member | source | states |
|---|---|---|
| CluMain.FirstNamedSpec | src/clu_main.c:85-94 | the position the table walk stops at is the first entry with that name, or the end of the table when no entry has it |
| CluMain.FirstNamedAt | src/clu_main.c:85-94 | an entry whose name no earlier entry shares is the one the walk stops at |
| CluMain.GetMode | src/clu_main.c:77-97 | the loop that compares lengths and then characters returns the value of the first entry with the argument's name, and WOLFCLU_FATAL_ERROR for NULL or an unknown word |
| CluMain.LookupFirstMatch | src/clu_main.c:77-97 | getMode returns a mode exactly when some entry has that name and the mode is the first such entry's; it returns WOLFCLU_FATAL_ERROR exactly when no entry matches or the argument is NULL |
| CluMain.LookupAt | src/clu_main.c:85-94 | an entry whose name no earlier entry has is what getMode returns for that name |
| CluMain.Aliases | src/clu_main.c:63-66 | "v" and "version" give the same mode, and so do "help" and "h" |
| CluMain.ExitCode | src/clu_main.c:309-317 | the exit status is 0 exactly for WOLFCLU_SUCCESS; a result <= 0 becomes WOLFCLU_FATAL_ERROR and any other result is returned unchanged |
| CluMain.MainEntry | src/clu_main.c:151-317 | a failed wolfCrypt_Init exits with -1 and runs nothing; otherwise the branch taken is the dispatch of the selected flag and the status is the exit code of that branch's result |
| CluMain.ExitStatus | src/clu_main.c:174-317 | the status is 0 exactly when the chosen handler or help screen succeeded; no mode, an unknown mode and every result <= 0 exit with WOLFCLU_FATAL_ERROR |
| CluMain.UnknownWordIsFatal | src/clu_main.c:303-306 | a word that names no mode prints help and exits with WOLFCLU_FATAL_ERROR whatever else is given |
| CluMain.RsaWordRouting | src/clu_main.c:259-261 | "rsa" given as a word runs the RSA key tool, not the legacy sign/verify setup |
| CluMain.DashedRouting | src/clu_main.c:166-172 | a dashed mode is the option parser's flag, and -rsa, -ecc and -ed25519 all reach wolfCLU_sign_verify_setup |
| CluMain.EncDirection | src/clu_main.c:180-189 | "enc" decrypts exactly when -d is found and encrypts otherwise |
| SignVerify.SignVerifySetup | src/sign-verify/clu_sign_verify_setup.c:28-240 | the setup returns the result and calls the worker that the decision table gives for the same options and files, and every buffer it allocated is freed when it returns |
| SignVerify.CopyAndRun | src/sign-verify/clu_sign_verify_setup.c:107-239 | once the key is copied, the -in and -sigfile copies, the -out and -in checks and the worker call agree with the table's rows after the key, and all three copies are freed |
| SignVerify.AlgorithmPriority | src/sign-verify/clu_sign_verify_setup.c:42-53 | with no algorithm option the result is WOLFCLU_FATAL_ERROR; a worker gets RSA exactly when -rsa is given, and ECC exactly when -ecc is the only algorithm option |
| SignVerify.HelpReturnsZero | src/sign-verify/clu_sign_verify_setup.c:67-81 | -help with an algorithm returns 0 and runs nothing |
| SignVerify.HelpLine | src/sign-verify/clu_sign_verify_setup.c:53-81 | the line `-rsa -help`, which ends on a flag, is taken and returns 0 |
| SignVerify.KeyIsMandatory | src/sign-verify/clu_sign_verify_setup.c:83-105 | no -inkey gives a result <= 0, a -inkey naming a missing file gives MEMORY_E, and a worker that runs gets the key path followed by a NUL |
| SignVerify.SigFileForVerify | src/sign-verify/clu_sign_verify_setup.c:136-170 | -verify without -sigfile runs nothing; the verifier gets the signature path followed by a NUL |
| SignVerify.OutRequirement | src/sign-verify/clu_sign_verify_setup.c:172-207 | a worker runs without -out only for Ed25519 or for ECC with -verify, and gets the -out value when it is given |
| SignVerify.InputRequirement | src/sign-verify/clu_sign_verify_setup.c:209-223 | a worker runs without -in only for RSA with -verify; otherwise it gets the input path followed by a NUL |
| SignVerify.SignBeforeVerify | src/sign-verify/clu_sign_verify_setup.c:225-230 | -sign wins over -verify and the result is the chosen worker's; a worker runs only when one of the two is given |
| SignVerify.WorkerRuns | src/sign-verify/clu_sign_verify_setup.c:28-240 | an algorithm, no -help, existing key, input and signature files, -out, and -sigfile whenever -verify is given: with all of these, a worker runs |
| CommandLine.CopyArg | src/sign-verify/clu_sign_verify_setup.c:131-132 | the buffer holds the argument's characters followed by a NUL |
| Hash.AcceptAlg | src/hash/clu_hash_setup.c:81-87 | the loop over the algorithm table accepts the word exactly when one of the enabled names is a prefix of it |
| Hash.DigestSize | src/hash/clu_hash_setup.c:135-159 | the chain of prefix tests gives the size of the last rule that matches, and the incoming size when none matches |
| Hash.HashSetup | src/hash/clu_hash_setup.c:29-167 | the setup returns the result and makes the wolfCLU_hash call that the decision table gives: -help gives WOLFCLU_SUCCESS; then an unknown algorithm, an -in or -out that does not open, and a missing -in each give their error code |
| Hash.HelpLine | src/hash/clu_hash_setup.c:74-79 | the line `-hash md5 -help`, which ends on a flag, is taken and returns success without hashing |
| Hash.AcceptsByPrefix | src/hash/clu_hash_setup.c:81-87 | any word that begins with an enabled name is accepted, so "sha1" and "shake" pass through "sha" |
| Hash.InputRules | src/hash/clu_hash_setup.c:89-133 | wolfCLU_hash is called exactly when the algorithm is accepted, -in is given and opens, and -out (if given) opens; the call gets the -in path and the algorithm word as given, and its result is returned |
| Hash.SizeRules | src/hash/clu_hash_setup.c:135-159 | later tests override earlier ones: a sha256, sha384 or sha512 prefix gets its own size although "sha" also matched; plain sha, and md5, get their sizes; any other name keeps the base size |
| Hash.SizeOption | src/hash/clu_hash_setup.c:115-128 | -size counts only in a BLAKE2 build; a value outside 1..64 falls back to BLAKE2B_OUTBYTES; the base size is always between 0 and 64 |
| Hash.NewOutputFile | src/hash/clu_hash_setup.c:105-113 | an -out file that can be written but not read: the code as written (opened "rb") refuses it with USER_INPUT_ERROR, and the corrected setup hashes into it |
| Client.ColonAtSpec | src/client/clu_client_setup.c:82 | strcspn(optarg, ":") is the position of the first ':' and is less than the length exactly when the string holds a ':' |
| Client.SplitTarget | src/client/clu_client_setup.c:82-98 | the host is the text before the first ':' and holds no ':'; host, ':' and port joined give back the argument |
| Client.SplitAndJoin | src/client/clu_client_setup.c:82-98 | splitting host + ":" + port, for a host without ':', gives back that host and port |
| Client.ClientVector | src/client/clu_client_setup.c:53 | the vector passed to client_test (program name, -h host -p port, -d -x -v d) fits in MAX_CLIENT_ARGS entries |
| Client.HelpedStays | src/client/clu_client_setup.c:102-104 | once -help has been seen, nothing later changes the outcome |
| Client.CopyHost | src/client/clu_client_setup.c:83-90 | the host buffer holds the first idx characters of the argument, then a NUL |
| Client.TakeConnect | src/client/clu_client_setup.c:75-100 | a -connect without ':' makes the result fatal; when the result is still success, the host and port of the argument become the target, and the vector and host buffer then hold exactly that target (repaired: a second host replaces the first) |
| Client.ClientSetup | src/client/clu_client_setup.c:55-140 | -help returns WOLFCLU_SUCCESS without running the client; otherwise the result is the scan's, client_test runs exactly on success with the program name, target and fixed flags, and no host buffer is still held on return |
| Client.OneConnect | src/client/clu_client_setup.c:75-129 | one -connect host:port runs the client with exactly wolfclu -h host -p port -d -x -v d, nine entries |
| Client.NoColonIsFatal | src/client/clu_client_setup.c:76-79 | a -connect without ':' makes the command fatal, and no later option except -help changes that |
| Client.FatalStays | src/client/clu_client_setup.c:81-99 | a fatal result stays fatal through every later option except -help |
| Client.HelpSucceeds | src/client/clu_client_setup.c:102-104 | -help anywhere returns WOLFCLU_SUCCESS at once, whatever came before it |
| Client.TwoConnectsOverflow | src/client/clu_client_setup.c:81-124 | as written, two -connect options write 13 entries into the 10-entry clientArgv and leave the first host allocated |
| Client.HelpAfterConnectLeaks | src/client/clu_client_setup.c:102-104 | as written, -help after a -connect returns without freeing the host |
| Client.AsWrittenAgrees | src/client/clu_client_setup.c:72-124 | while at most one -connect is taken, the code as written and the repaired loop agree on the result and on the vector |
| Crypto.PadCopy | src/crypto/clu_crypto_setup.c:148 | XSTRNCPY of a C string into n places gives exactly n characters: the string's first characters, then NUL padding |
| Crypto.Overwrite | src/crypto/clu_crypto_setup.c:148 | writing the copy into pwdKey keeps the buffer's length |
| Crypto.Decode | src/crypto/clu_crypto_setup.c:166-194 | the hex argument, copied with its terminator, decodes to exactly what wolfCLU_hexToBin gives for the argument |
| Crypto.NewBytes | src/crypto/clu_crypto_setup.c:184-187 | the buffer wolfCLU_hexToBin hands back is new and holds the decoded bytes |
| Crypto.ApplyOpt | src/crypto/clu_crypto_setup.c:142-309 | one pass of the switch leaves the flags, pwdKey, key and IV as the option's step describes, or stops with that step's return value; a new key or IV is a fresh buffer, and the two stay distinct |
| Crypto.ScanOptions | src/crypto/clu_crypto_setup.c:139-310 | the getopt loop ends either stopped with the value the first stopping option gives, or with the flags and buffer contents of the whole scan |
| Crypto.StoppedStays | src/crypto/clu_crypto_setup.c:143-299 | once an option returns from the setup, the options after it change nothing |
| Crypto.Invoke | src/crypto/clu_crypto_setup.c:368-419 | the cipher call gets the flags, input, key and IV of the scan, the password buffer as the prompt left it (cleared when a key is also set) and the key length from keySize as the prompt left it; its result is the setup's result |
| Crypto.Clear | src/crypto/clu_crypto_setup.c:420-424 | the first keySize places of the key, keySize + block of the password and block of the IV become zero, and the places after them keep their values |
| Crypto.Prompt | src/crypto/clu_crypto_setup.c:321-327 | when an encryption has neither -pwd nor -inkey, the typed password replaces the front of pwdKey and the rest of the buffer is kept; otherwise pwdKey is unchanged |
| Crypto.Zeroed | src/crypto/clu_crypto_setup.c:421-423 | XMEMSET of n places keeps the buffer's length, zeroes its first n places and keeps the others |
| Crypto.Checks | src/crypto/clu_crypto_setup.c:312-424 | the checks after the loop, the password prompt, the call and the clearing agree with the table's rows after the scan; at the end the three buffers are cleared over the lengths keySize has after the prompt |
| Crypto.CryptSetup | src/crypto/clu_crypto_setup.c:51-430 | the setup's result, call and clearing are those of the decision table: -h gives WOLFCLU_SUCCESS, an unknown algorithm WOLFCLU_FATAL_ERROR, then the scan and the checks decide; at its end the key and IV are zero over keySize and block places, keySize being the algorithm's or the prompt's, and the whole password buffer is zero whenever the prompt's size covers what it typed |
| Crypto.HexArgCopy | src/crypto/clu_crypto_setup.c:176-183 | as written, the -iv and -inkey copies have strlen(optarg) places holding the argument's characters, and no NUL among them |
| Crypto.TerminatedCopy | src/crypto/clu_crypto_setup.c:258-265 | a copy with its terminator has its first NUL exactly after the argument, so the string read from it is exactly the argument |
| Crypto.InKeyRule | src/crypto/clu_crypto_setup.c:234-280 | -inkey is fatal unless its hex length times four equals the key size and it decodes; a key that is taken replaces the key buffer and sets keyType 2 |
| Crypto.PasswordRule | src/crypto/clu_crypto_setup.c:143-152 | -pwd and -k copy at most keySize characters of the password, pad the rest of those places with NUL, leave the block after them untouched, and set keyType 1 |
| Crypto.LoweredFallsThrough | src/crypto/clu_crypto_setup.c:208-227 | -output and the codes grouped with it lower-case their argument and then, by falling through, set the input name as -in does |
| Crypto.ScanConsistent | src/crypto/clu_crypto_setup.c:139-310 | every option keeps the buffers' sizes apart from a replaced key or IV, and keyType names a key that was given |
| Crypto.StepConsistent | src/crypto/clu_crypto_setup.c:142-309 | one option keeps the flags consistent |
| Crypto.StepKeepsDecrypt | src/crypto/clu_crypto_setup.c:285-288 | after -d, no option turns decryption off or encryption back on |
| Crypto.StartConsistent | src/crypto/clu_crypto_setup.c:93-96 | the setup starts with encryption or decryption, never both, and no key |
| Crypto.DashDForcesDecrypt | src/crypto/clu_crypto_setup.c:285-288 | -d anywhere among the options gives decryption at the end of the scan |
| Crypto.FinishCall | src/crypto/clu_crypto_setup.c:312-370 | a call is made only in one of the two directions, with a password or key unless encrypting, and with a key whenever an IV was set; its result is the setup's result, its input is the prompted name when encryption had no -in, and its password buffer is the one the password prompt filled when there was neither -pwd nor -inkey |
| Crypto.DecryptNeedsSecret | src/crypto/clu_crypto_setup.c:312-320 | decryption without a password or a key is fatal, and every decryption call has one of them |
| Crypto.IvNeedsKey | src/crypto/clu_crypto_setup.c:357-366 | -iv without -inkey is fatal, and every call with an IV set has a key |
| Crypto.PasswordClearedWithKey | src/crypto/clu_crypto_setup.c:321-370 | with both a password and a key the cipher routine sees the password buffer cleared; with a password and no key it sees that password; with neither it sees the typed password at the front of the buffer and the rest unchanged |
| Crypto.PasswordWiped | src/crypto/clu_crypto_setup.c:321-422 | the final clearing of keySize + block places wipes the whole password buffer: a -pwd password lies in its first keySize places, and a typed one in the places the prompt's size covers, the places after it being still zero |
| Crypto.BytesForBits | src/crypto/clu_crypto_setup.c:377 | (n + 7) / 8 is the fewest whole bytes that hold n bits |
| Crypto.KeyLengthInBytes | src/crypto/clu_crypto_setup.c:326-416 | the EVP routine gets the key length in whole bytes, the fewest that hold keySize bits, and the legacy routines get keySize; keySize is the size the password prompt left when it ran, the algorithm's otherwise |
| Crypto.PromptedEncryption | src/crypto/clu_crypto_setup.c:321-384 | an encryption given only -in prompts for the password, and the EVP routine gets the typed password at the front of pwdKey and (keySize+7)/8 with keySize as the prompt left it |
| Crypto.DecryptCall | src/crypto/clu_crypto_setup.c:395-416 | with -d among the options, a call that is made decrypts, with keyType 1 (password) or 2 (user key) |
| CertSetup.FlagLines | src/x509/clu_cert_setup.c:62-81 | lines that end on a flag are taken: `x509 -h` returns success, and `x509 -in c.pem -text` opens c.pem and fails with INPUT_FILE_ERROR when it is not there |
| CertSetup.Open | src/x509/clu_cert_setup.c:86-209 | after -h: no -in is fatal, an -in that does not open gives INPUT_FILE_ERROR, a negative -out answer is fatal, a certificate that does not decode in the -inform form is fatal; success means a decoded certificate and an output BIO, the -out file when it opens and stdout otherwise; the output form is -outform's or PEM |
| CertSetup.EmailOf | src/x509/clu_cert_setup.c:337-338 | the subject's e-mail text is found exactly when the name has an e-mail entry |
| CertSetup.Clamp | src/x509/clu_cert_setup.c:428-431 | the flag word handed to the purpose printer is below 2^31: the 32-bit word itself, or 0 when it is negative as an int |
| CertSetup.Next | src/x509/clu_cert_setup.c:262-279 | one checked or unchecked BIO write extends the run of the plan by one step; a failed write means the BIO had no room left |
| CertSetup.Halt | src/x509/clu_cert_setup.c:296-299 | a printer that fails without writing ends the run: nothing after it is written |
| CertSetup.Settle | src/x509/clu_cert_setup.c:270-279 | after a failure the rest of a plan writes nothing and changes nothing |
| CertSetup.PrintName | src/x509/clu_cert_setup.c:218-246 | the one-line name and a newline are written, their results ignored, so the section always succeeds; the BIO holds what the plan's run writes |
| CertSetup.PrintSerial | src/x509/clu_cert_setup.c:262-279 | the label, one two-digit write per serial byte while nothing has failed, and the newline; the BIO and the return code are those of the serial line's run |
| CertSetup.PrintTime | src/x509/clu_cert_setup.c:296-300 | wolfSSL_ASN1_TIME_print writes the time, or fails without writing when there is none |
| CertSetup.PrintDates | src/x509/clu_cert_setup.c:289-318 | notBefore=, the time and a newline, then notAfter=, the time and a newline, each only while nothing failed; the BIO and the return code are those of the dates plan |
| CertSetup.PrintEmail | src/x509/clu_cert_setup.c:326-376 | a subject with no e-mail entry, or an empty one, is fatal without writing; otherwise the address and a newline are written |
| CertSetup.PrintFingerprint | src/x509/clu_cert_setup.c:384-417 | with a DER encoding and a digest, the label and one write per digest byte, stopping at the first failure, then the newline; without them nothing is written |
| CertSetup.PrintPurpose | src/x509/clu_cert_setup.c:425-434 | the clamped extended-key-usage word is printed and the printer's result is ignored |
| CertSetup.PrintHash | src/x509/clu_cert_setup.c:442-460 | the subject hash in "%08lx" form and a newline, the first write checked with <= 0 and the second with < 0 |
| CertSetup.PrintOne | src/x509/clu_cert_setup.c:464-490 | one library printer writes its chunk, and its failure is fatal |
| CertSetup.OpenInput | src/x509/clu_cert_setup.c:86-209 | the option checks, the input, the decode and the output BIO give the return code, certificate, target and output form that Open describes |
| CertSetup.PrintNames | src/x509/clu_cert_setup.c:212-246 | the subject and issuer sections, each only while every earlier section succeeded |
| CertSetup.PrintSerialAndDates | src/x509/clu_cert_setup.c:248-318 | the serial and dates sections, each only while every earlier section succeeded |
| CertSetup.PrintEmailAndFingerprint | src/x509/clu_cert_setup.c:320-417 | the e-mail and fingerprint sections, each only while every earlier section succeeded |
| CertSetup.PrintPurposeAndHash | src/x509/clu_cert_setup.c:419-460 | the purpose and subject-hash sections, each only while every earlier section succeeded |
| CertSetup.Describe | src/x509/clu_cert_setup.c:212-460 | the eight description sections run in order, each only while every earlier one succeeded, and a failing one is fatal |
| CertSetup.Show | src/x509/clu_cert_setup.c:463-490 | the text, the public key, and the certificate (PEM for a PEM output form, DER otherwise, none with -noout), each only while nothing failed |
| CertSetup.CertSetup | src/x509/clu_cert_setup.c:53-495 | the return code, the output target and what the BIO holds are those of the decision table: -h returns success without output, an open failure returns before the BIO exists, and otherwise the sections run against the BIO |
| CertSetup.StageAppend | src/x509/clu_cert_setup.c:212-490 | two sections run one after the other write what their two plans joined write |
| CertSetup.SectionsFollowPlan | src/x509/clu_cert_setup.c:212-490 | the eleven sections, run one after the other from success, write exactly what the command's whole plan writes against the BIO's room, and return success exactly when that run succeeds |
| CertSetup.DecideFollowsPlan | src/x509/clu_cert_setup.c:53-495 | once the input decoded, the command's output and return code are those of its plan run against the BIO's room |
| CertSetup.PerformPrefix | src/x509/clu_cert_setup.c:212-490 | what a run writes is always a prefix of what the plan means to write |
| CertSetup.OutputInOrder | src/x509/clu_cert_setup.c:212-490 | once the input decoded, the output is a prefix of the parts asked for, in the fixed order of the code, and the return code is WOLFCLU_SUCCESS or WOLFCLU_FATAL_ERROR |
| CertSetup.EveryPartWritten | src/x509/clu_cert_setup.c:212-490 | with room for every write and no printer failing, every part asked for is written and the command succeeds |
| CertSetup.FirstFailureEndsOutput | src/x509/clu_cert_setup.c:212-490 | if a write among the first k fails, nothing after those k is written and the command is fatal |
| CertSetup.EarlyReturns | src/x509/clu_cert_setup.c:62-183 | -h returns success; a missing -in, an -in that does not open, a negative -out answer and a failed decode return their codes before the output BIO exists, with nothing written |
| CertSetup.DecodedPerInform | src/x509/clu_cert_setup.c:171-183 | the certificate is decoded from the -in file in the -inform form (PEM by default), and the decode failing is fatal |
| CertSetup.HexPlanText | src/x509/clu_cert_setup.c:267-275 | the per-byte writes spell the bytes in upper-case hex, two digits each |
| CertSetup.LabelledHexText | src/x509/clu_cert_setup.c:398-413 | a label, the bytes in hex and a newline make one text line |
| CertSetup.SerialLineText | src/x509/clu_cert_setup.c:262-279 | the serial line is "serial=", two upper-case hex digits per byte and a newline, and the digits read back as the serial number |
| CertSetup.FingerprintLineText | src/x509/clu_cert_setup.c:398-413 | the fingerprint line is "SHA1 of cert. DER : " followed by the digest in upper-case hex and a newline |
| CertSetup.HashLineText | src/x509/clu_cert_setup.c:449-457 | the subject hash is written in hex digits that read back as the hash, eight of them for a hash below 2^32 |
| CertSetup.ClampIsSignedTest | src/x509/clu_cert_setup.c:428-431 | the clamp is the C test (int)keyUsage < 0 on the 32-bit word, and it keeps every word below 2^31 unchanged |
| CertSetup.LeadingHasNoCertificate | src/x509/clu_cert_setup.c:212-474 | no section before the last writes an encoding of the certificate |
| CertSetup.NooutWritesNoCertificate | src/x509/clu_cert_setup.c:152-156 | with -noout no encoding of the certificate reaches the BIO |
| CertSetup.PlanEndsWithCertificate | src/x509/clu_cert_setup.c:477-490 | a plan run to the end without -noout ends with the certificate's encoding |
| CertSetup.CertificateWrittenLast | src/x509/clu_cert_setup.c:477-490 | without -noout a successful command ends with the certificate, in PEM exactly when -outform asked for PEM or was absent, and in DER otherwise |
| CertSetup.EndsWith | src/x509/clu_cert_setup.c:477-490 | a plan whose last, checked write succeeds ends with that write |
| Config.TypeFromPKey | src/x509/clu_config.c:530-552 | RSA, DSA, EC and DH keys map to RSAk, DSAk, ECDSAk and DHk; the type is 0 exactly for any other key |
| Config.TypeFromPKeyInjective | src/x509/clu_config.c:530-552 | two keys of different supported kinds never report the same type |
| Config.AsWrittenCriticalIsShort | src/x509/clu_config.c:253 | as written, only a value no longer than the literal "critical" can be critical |
| Config.AsWrittenCriticalMisreads | src/x509/clu_config.c:253-255 | the test as written and the intended test disagree both ways: "critical,CA:TRUE" is not critical as written, while "" and "it" are |
| Config.CriticalAnywhere | src/x509/clu_config.c:253-255 | the intended test finds the word "critical" wherever it stands in the value |
| Config.ShortIsNotCritical | src/x509/clu_config.c:253-255 | with the intended test, a value shorter than eight characters is not critical |
| Config.ParseBasicConstraint | src/x509/clu_config.c:52-99 | the strtok_r loop over the ':'-separated words builds the basicConstraints extension of the value, with the criticality it is given |
| Config.BasicAppend | src/x509/clu_config.c:78-96 | words read in whole passes of the loop can be followed by more: the parser goes on from the constraint they left |
| Config.PathLenAppend | src/x509/clu_config.c:87-95 | the pathlen test, followed by more words, goes on from the constraint it left |
| Config.LaterPathLenWins | src/x509/clu_config.c:87-95 | after earlier words, "pathlen:N" sets the path length to N, replacing any earlier one, and keeps the CA flag |
| Config.LaterCaTrueSets | src/x509/clu_config.c:80-85 | after earlier words, "CA:TRUE" sets the CA flag and keeps the path length |
| Config.CaTruePathLen | src/x509/clu_config.c:78-96 | "CA:TRUE:pathlen:N" reads as a CA certificate with path length N |
| Config.CaTrueTokens | src/x509/clu_config.c:78-79 | "CA:TRUE:pathlen:N" splits into the four words CA, TRUE, pathlen and N |
| Config.CaTrueWords | src/x509/clu_config.c:80-95 | the four words CA, TRUE, pathlen, N set the CA flag and path length N |
| Config.CaThenPathLen | src/x509/clu_config.c:80-95 | the word after "CA" is tested again as "pathlen", so "CA:pathlen:5" leaves the CA flag clear but sets the path length to 5 |
| Config.ParseSubjectKeyId | src/x509/clu_config.c:102-168 | the loop over the ','-separated words gives the extension that the skid definition describes: a word that is a prefix of "hash" with no public key returns NULL, and a key that hashes replaces the extension built so far |
| Config.SkidOutcome | src/x509/clu_config.c:114-165 | the loop returns what it started with unless a word asks for the hash; then NULL without a public key, and otherwise the hashed identifier, or the earlier value when hashing fails |
| Config.SkidIff | src/x509/clu_config.c:102-168 | the value yields an extension exactly when a word asks for the hash, the certificate has a public key and the key hashes (RSA or ECC); the extension is then that key's identifier |
| Config.NewExtension | src/x509/clu_config.c:247-273 | the extension built has the NID asked for and the criticality of the value; basicConstraints and keyUsage always give one, and authorityKeyIdentifier and unknown NIDs give none |
| Config.ParseExtension | src/x509/clu_config.c:247-284 | the built extension, if any, joins the certificate's list and idx counts it; the result is WOLFCLU_SUCCESS whatever happened |
| Config.KeyOfInjective | src/x509/clu_config.c:306 | different numbers give different keys, in full |
| Config.PresentCount | src/x509/clu_config.c:304-315 | a section holds at least as many keys as a run of one key family it contains, so a scan over the family ends |
| Config.RunFrom | src/x509/clu_config.c:304-315 | the values read are those of keys i, i + 1, ... in order, and the scan stops at the first key the section lacks |
| Config.RunUnique | src/x509/clu_config.c:304-315 | the run of a key family is fixed by its contents: the values of consecutive keys, ending where the section first lacks a key |
| Config.RunStep | src/x509/clu_config.c:304-315 | one pass of a scan: the run from key i is that key's value followed by the run from key i + 1 |
| Config.AsWrittenAltKeyShort | src/x509/clu_config.c:306 | below the five-character cut, the truncated key and the full key agree |
| Config.LeadingDigit | src/x509/clu_config.c:306 | the first digit of a positive number is 1 to 9 |
| Config.LeadingTwoDigits | src/x509/clu_config.c:321 | the first two digits of a number from 10 on print a number from 10 to 99 |
| Config.AsWrittenDnsKeyRepeats | src/x509/clu_config.c:305-307 | as written, from 10 on the truncated key repeats one of DNS.1 to DNS.9 |
| Config.AsWrittenSkipsDns10 | src/x509/clu_config.c:305-307 | as written, the loop never asks for DNS.10 or any longer key |
| Config.AsWrittenDnsNeverStops | src/x509/clu_config.c:304-315 | as written, once DNS.1 to DNS.9 are all present, every key the loop asks for is present, so the do-while loop never stops |
| Config.GoodIps | src/x509/clu_config.c:319-346 | the count of leading IP values that wolfSSL_a2i_IPADDRESS converts: all before it convert and the one at it does not |
| Config.AsWrittenIpKeyRepeats | src/x509/clu_config.c:320-321 | as written, from 100 on the truncated key repeats one of IP.10 to IP.99 |
| Config.AsWrittenSkipsIp100 | src/x509/clu_config.c:320-321 | as written, the IP loop never asks for IP.100 or any longer key |
| Config.AsWrittenIpNeverStops | src/x509/clu_config.c:318-346 | as written, once IP.1 to IP.99 are all present, every key the IP loop asks for is present, so the do-while loop never stops unless a value does not convert |
| Config.AddDnsNames | src/x509/clu_config.c:302-315 | the DNS scan, corrected to untruncated keys, adds the DNS names of DNS.1, DNS.2, ... in order up to the first missing key |
| Config.AddIpNames | src/x509/clu_config.c:317-346 | the IP scan, corrected to untruncated keys, adds IP.1, IP.2, ... in order; it stops with success at the first missing key, or WOLFCLU_FATAL_ERROR at the first value that does not convert |
| Config.SetAltNames | src/x509/clu_config.c:288-350 | no section changes nothing; otherwise the certificate gets the DNS names, then the IP addresses, and the result is success unless an IP value does not convert |
| Config.BadIpKeepsEarlier | src/x509/clu_config.c:340-343 | a bad IP value is fatal, yet every DNS name and every IP value before it has already been added |
| Config.DnsRunReadsAll | src/x509/clu_config.c:304-315 | with untruncated keys the scan reads DNS.1 to DNS.n, past DNS.9, and stops at the first missing number |
| Config.IpRunReadsAll | src/x509/clu_config.c:318-346 | with untruncated keys the IP scan reads IP.1 to IP.n, past IP.99, and stops at the first missing number |
| Config.ExtensionFromKey | src/x509/clu_config.c:363-366 | one lookup of wolfCLU_setExtensions: the extension built from the key's value joins the certificate when the key is present |
| Config.SetExtensions | src/x509/clu_config.c:354-390 | basicConstraints, subjectKeyIdentifier, authorityKeyIdentifier and keyUsage in that order, then the alt-name section named by "@name"; the result is WOLFCLU_SUCCESS |
| Config.ExtensionsOrder | src/x509/clu_config.c:363-382 | an extensions section appends at most one basicConstraints, subjectKeyIdentifier and keyUsage extension, in that order and never an authorityKeyIdentifier, and changes nothing else but the alt names |
| Config.AddedSize | src/x509/clu_config.c:363-382 | a section adds at most three extensions |
| Config.ExtensionsAdded | src/x509/clu_config.c:363-382 | the four lookups append exactly the extensions the section yields and keep the rest of the certificate |
| Config.AltNamesNeedAt | src/x509/clu_config.c:384-388 | the alt names change only through a subjectAltName value that starts with '@' |
| Config.BasicConstraintsFirst | src/x509/clu_config.c:363-366 | a basicConstraints value is the first extension added |
| Config.X509AddEntry | src/x509/clu_config.c:407-422 | when the key is present its entry joins the name and the result is WOLFCLU_SUCCESS; otherwise nothing is added and the result is WOLFCLU_FAILURE |
| Config.AddOrgEntries | src/x509/clu_config.c:470-475 | the numbered keys 0.organizationName, 1.organizationName, ... are added in order up to the first missing one |
| Config.AddOrgGroup | src/x509/clu_config.c:466-475 | the organisation field adds organizationName_default, organizationName, then the numbered ones |
| Config.AddCommonGroup | src/x509/clu_config.c:482-487 | the common-name field adds commonName_default, commonName, then CN |
| Config.SetDisNames | src/x509/clu_config.c:428-496 | no section changes nothing; otherwise the name built field by field replaces the subject, and the result is WOLFCLU_SUCCESS |
| Config.DisNameOrdered | src/x509/clu_config.c:446-491 | the subject lists its fields in the fixed order country, state, locality, organisation (with the numbered ones), unit, common name, e-mail |
| Config.CountryDefaultFirst | src/x509/clu_config.c:446-449 | a field's "_default" value comes before its plain value: with both country keys the subject starts with the default country, then the plain one |
| Config.SetAttributes | src/x509/clu_config.c:30-48 | not implemented: it changes nothing and always returns WOLFCLU_FAILURE |
| Config.ReadConfig | src/x509/clu_config.c:499-527 | attributes (no effect), then the extensions section (-extensions, else x509_extensions), then the distinguished-name section; the result is WOLFCLU_SUCCESS whatever the steps return |
| Config.ConfigChanges | src/x509/clu_config.c:499-527 | a configuration changes only the extensions, the alt names and the subject; with a distinguished-name section the subject is replaced whole |
| KeyUsage.MasksDisjoint | src/x509/clu_config.c:193-228 | the KEYUSE masks the parser sets are single, distinct bits: two of them share a bit exactly when they are the same mask |
| KeyUsage.WordFlagsBit | src/x509/clu_config.c:193-228 | one word sets a usage bit exactly when it is a prefix of a name of that bit |
| KeyUsage.SkipBlanks | src/x509/clu_config.c:186-191 | the loop that skips leading blanks leaves the word with its leading blanks removed |
| KeyUsage.ParseKeyUsage | src/x509/clu_config.c:171-243 | the keyUsage extension of a value carries the OR of the flags of its ','-separated words, each without its leading blanks, with the criticality it is given |
| KeyUsage.TokenFlagsBit | src/x509/clu_config.c:183-229 | the flag word of a token list has a usage bit exactly when some token, without its leading blanks, names that bit |
| KeyUsage.ParsedBitIff | src/x509/clu_config.c:171-243 | a usage bit is set by a parsed value exactly when some comma-separated word of it, without leading blanks, is a prefix of a name of that bit |
| KeyUsage.KeyWordSetsThree | src/x509/clu_config.c:202-216 | prefix matching: "key" sets keyEncipherment, keyAgreement and keyCertSign at once |
| KeyUsage.BlankWordSetsAll | src/x509/clu_config.c:186-228 | a word made only of blanks shrinks to the empty word, which is a prefix of every name, so it sets every usage bit |
| KeyUsage.ContentCommitAliases | src/x509/clu_config.c:197-200 | nonRepudiation and contentCommitment both set the content-commitment bit |
| KeyUsage.NameLinesOk | src/x509/clu_request_setup.c:131-181 | the name lines are unchecked writes, so printing them never fails |
| KeyUsage.PrintIfSet | src/x509/clu_request_setup.c:131-135 | one name is written, on its own indented line, exactly when its bit is set |
| KeyUsage.KeyUsagePrint | src/x509/clu_request_setup.c:126-185 | nothing is written for a value <= 0; otherwise one indented line per set bit, in the printer's order; the result is always WOLFSSL_SUCCESS |
| KeyUsage.PrintNamesWellFormed | src/x509/clu_request_setup.c:126-185 | the printed names hold no comma, so they can be joined into one config value |
| KeyUsage.PrintThenParse | src/x509/clu_request_setup.c:126-185 | the names the printer prints for a flag word, joined with commas into a keyUsage config value, parse back to that word's usage bits |
| Request.ReadOptions | src/x509/clu_request_setup.c:516-632 | the getopt loop leaves exactly the variables the switch cases set, reading the options in order and stopping at -help |
| Request.OptionsSnoc | src/x509/clu_request_setup.c:516-632 | reading one more option after the others is one more switch case applied to the variables the others left |
| Request.OptionsHelp | src/x509/clu_request_setup.c:560-562 | the loop returns for help exactly when some option is -help |
| Request.DigestIsLast | src/x509/clu_request_setup.c:580-603 | the digest left by the loop is the one named by the last -sha* option, and the earlier value when there is none |
| Request.HelpReturns | src/x509/clu_request_setup.c:560-562 | an option list holding -help returns success with no document, no output BIO and nothing written |
| RequestRules.RequestDigest | src/x509/clu_request_setup.c:580-641 | requests are signed with the digest of the last -sha* option, and with SHA-256 when there is none |
| Request.StartedOnSuccess | src/x509/clu_request_setup.c:644-775 | a state still good at the signing step came from a successful option loop and holds its document |
| Request.ReadyHasKey | src/x509/clu_request_setup.c:750-755 | a state still good at the signing step has a key whenever the document is to be signed |
| Request.RequestSetup | src/x509/clu_request_setup.c:478-871 | the method, which changes a document object and an output sink step by step, returns the report (code, document, output BIO, chunks written) the stage functions define |
| RequestRules.KeyedQuiet | src/x509/clu_request_setup.c:666-706 | the dates, key and input check write nothing, open no output and create no document |
| RequestRules.NamedQuiet | src/x509/clu_request_setup.c:708-739 | the config file, -subj and the default subject write nothing, open no output and create no document |
| RequestRules.KeyedEffect | src/x509/clu_request_setup.c:666-706 | a good result after lines 666-706 needs a good start and -key or -in, the clock for -days and a readable private key for -key; it sets the dates for -days N > 0 and the key's public half, and nothing else |
| RequestRules.ConfigEffect | src/x509/clu_request_setup.c:708-712 | the config stage changes only the extensions, alternative names and subject, as the "req" section gives them, and asks for re-signing |
| RequestRules.NamedEffect | src/x509/clu_request_setup.c:708-739 | a good result after lines 708-739 applies the config file, then -subj when it parses, then the user's subject when none of -subj, -config and -in is given |
| RequestRules.PreparedQuiet | src/x509/clu_request_setup.c:644-739 | the stages before the signing decision write nothing and open no output |
| RequestRules.AfterPreparedFailure | src/x509/clu_request_setup.c:741-858 | once a stage before signing has failed, every later stage's guard is false and the state is passed on unchanged |
| RequestRules.AfterReadyFailure | src/x509/clu_request_setup.c:777-858 | once the signing step starts from a failed state, nothing more happens |
| RequestRules.InitialDocument | src/x509/clu_request_setup.c:644-664 | without -in a new document is made; with -in the file is decoded as PEM for -inform PEM and as DER otherwise, with no second attempt; the stage succeeds exactly when it has a document |
| RequestRules.DecodeFailure | src/x509/clu_request_setup.c:652-663 | a request that does not decode is fatal, with no document and no output |
| RequestRules.NoKeyNoRequest | src/x509/clu_request_setup.c:701-706 | with neither -key nor -in the command ends with USER_INPUT_ERROR, unless the option loop, the allocation or the dates failed first, and writes nothing |
| RequestRules.ReSignRule | src/x509/clu_request_setup.c:666-739 | re-signing is asked for exactly by -days N > 0, -config or -subj, and the key is -key's, or none |
| RequestRules.OverrideOrder | src/x509/clu_request_setup.c:666-739 | the overrides in source order: dates, key, config file, -subj (kept when unparsable), the user's subject only with none of -subj, -config and -in; nothing else in the document changes |
| RequestRules.ReadyStep | src/x509/clu_request_setup.c:741-775 | lines 741-775 succeed exactly when there is a key for signing and the -out file opens; they set version 1 and pick the -out file or stdout |
| RequestRules.ReadyRule | src/x509/clu_request_setup.c:644-775 | the state at the signing step is good exactly when the earlier stages succeeded, a key is given when the document is signed and the -out file opens |
| RequestRules.MissingKeyFatal | src/x509/clu_request_setup.c:750-755 | signing with no key is fatal, before any output |
| RequestRules.CheckedStep | src/x509/clu_request_setup.c:777-826 | from a good state the document is signed when it should be, under version 3 for -x509; the step fails exactly when signing fails or -verify has no key |
| RequestRules.CheckedNeedsReady | src/x509/clu_request_setup.c:777-826 | a good state after signing never came from a failed one |
| RequestRules.SigningRule | src/x509/clu_request_setup.c:741-804 | a signed document has -key's key and the chosen digest under version 3 for -x509, else version 1; a loaded request that is not re-signed keeps its signature and stays version 1 even with -x509 |
| RequestRules.CheckedQuiet | src/x509/clu_request_setup.c:644-826 | nothing is written before -text, the document exists and the output BIO is the -out file or stdout |
| RequestRules.VerifyRule | src/x509/clu_request_setup.c:806-826 | -verify checks with -key's key, else the document's own public key; with neither it is fatal |
| RequestRules.VerifyOnlyLogged | src/x509/clu_request_setup.c:806-826 | with a key to check with, -verify changes nothing the command does: its verdict is only logged |
| RequestRules.OutputStep | src/x509/clu_request_setup.c:828-858 | -text prints the request with its result dropped, then one encoding is written unless -noout; only a failed encoding write is fatal |
| RequestRules.OutputRule | src/x509/clu_request_setup.c:828-858 | from the options: the printed request for -text, then unless -noout the one encoding -outform and -x509 select; success exactly when -noout is given or that encoding fits |
| Request.StartDocument | src/x509/clu_request_setup.c:644-664 | the new or decoded x509 object and the code are the ones the initial stage defines; success leaves a freshly made object |
| Request.DatesAndKey | src/x509/clu_request_setup.c:666-706 | the x509 object, key and re-sign flag after the dates, the key and the input check are the ones that stage defines; a good result needs a good start |
| Request.Names | src/x509/clu_request_setup.c:708-739 | the x509 object and re-sign flag after the config file, -subj and the default subject are the ones that stage defines |
| Request.Prepare | src/x509/clu_request_setup.c:741-775 | version 1, the key check and the output BIO (-out or stdout) as the stage functions define them |
| Request.SignAndVerify | src/x509/clu_request_setup.c:777-826 | the signed document and the code after -verify are the ones the signing and verify stages define |
| Request.WriteAll | src/x509/clu_request_setup.c:828-858 | the chunks that reach the output BIO and the final code are the ones the print and write stages define |
| Document.Cert.constructor | src/x509/clu_request_setup.c:646 | a new x509 object holds the document it is given |
| RequestPrint.UncheckedOk | src/x509/clu_request_setup.c:349-380 | a printer that ignores every write result reports success whatever becomes of its writes |
| RequestPrint.VersionPrint | src/x509/clu_request_setup.c:386-406 | the method writes exactly the version plan to the sink and returns WOLFSSL_SUCCESS exactly when that plan goes through |
| RequestPrint.VersionPrintOk | src/x509/clu_request_setup.c:392-405 | the version printer fails exactly when the reported version is negative or one of its two lines does not fit |
| RequestPrint.VersionLineFields | src/x509/clu_request_setup.c:392-402 | the decimal field reads back as the reported version (stored plus one) and, for stored versions 0 to 254, the "%x" field reads back as the stored one |
| RequestPrint.SmallVersionHex | src/x509/clu_request_setup.c:402 | below 256 the `(byte)version-1` cast changes nothing |
| RequestPrint.VersionHexWraps | src/x509/clu_request_setup.c:402 | a reported version of 256 has low byte 0, so "%x" prints ffffffff |
| RequestPrint.SerialPrint | src/x509/clu_request_setup.c:66-120 | the method writes exactly the serial plan and returns WOLFSSL_SUCCESS exactly when that plan goes through |
| RequestPrint.SerialText | src/x509/clu_request_setup.c:101-113 | the loop filling tmp[100] builds the serial's hex line: with at most 32 bytes its `3 * i < 100 - 5` bound never stops it early |
| RequestPrint.SerialLineFields | src/x509/clu_request_setup.c:105-112 | byte i of the serial is printed as two lower-case hex digits at column 3i, followed by ':' or, after the last byte, a newline |
| RequestPrint.OneByteSerialUnprinted | src/x509/clu_request_setup.c:75-90 | a one-byte serial prints nothing: its same-line branch sits inside the `sz > 1` guard |
| RequestPrint.NamePrint | src/x509/clu_request_setup.c:369-380 | the method writes exactly the subject plan: the title, the name and a newline, none of them checked |
| RequestPrint.PubKeyPrint | src/x509/clu_request_setup.c:349-362 | the method writes exactly the public-key plan, none of it checked |
| RequestPrint.NameAndKeyPrintOk | src/x509/clu_request_setup.c:349-380 | neither the subject printer nor the public-key printer can fail |
| RequestPrint.AltsLeftSnoc | src/x509/clu_request_setup.c:224-231 | the alt-name cursor is not rewound: once one subjectAltName extension has been passed, no names are left for a later one |
| RequestPrint.ExtensionsPrint | src/x509/clu_request_setup.c:192-248 | the method writes exactly the extensions plan (a heading, then per extension its line and its body: the alt names, the key usage or "NID n print not yet supported") and returns success exactly when that plan goes through |
| RequestPrint.ExtensionsPrintOk | src/x509/clu_request_setup.c:199-247 | the extension printer fails only when there are extensions and their heading cannot be written |
| RequestPrint.SignaturePrint | src/x509/clu_request_setup.c:268-342 | the method writes the heading and the signature dump, with the last buffered line always flushed, and returns success exactly when that plan goes through |
| RequestPrint.SigLinesLayout | src/x509/clu_request_setup.c:307-339 | the dump has ceil(n / 18) lines; line k holds bytes 18k up to 18k + 18 as lower-case hex joined by ':' |
| RequestPrint.SigLinesFitBuffer | src/x509/clu_request_setup.c:273-328 | every dump line fits tmp[100] with its terminator, so nothing is truncated |
| RequestPrint.SigLinesContent | src/x509/clu_request_setup.c:307-339 | stripped of blanks, colons and line breaks, the dump is the lower-case hex of every signature byte, in order |
| RequestPrint.AsWrittenDropsLastLine | src/x509/clu_request_setup.c:333-339 | as written, a signature of 18k + 1 bytes loses its last line, which holds only its last byte |
| RequestPrint.AsWrittenOneByteSignature | src/x509/clu_request_setup.c:333-339 | as written, a one-byte signature prints its heading and no byte |
| RequestPrint.AsWrittenElsewhereAgrees | src/x509/clu_request_setup.c:333-339 | for every other length the code writes exactly the corrected lines |
| RequestPrint.ReqPrint | src/x509/clu_request_setup.c:414-473 | the method writes the parts in order (heading, "Data:", version, serial, subject, key, extensions, attributes, signature, final newline); the first part that fails ends the print with WOLFSSL_FAILURE |
| Output.Perform | src/x509/clu_request_setup.c:414-473 | every write either lands or is refused, so the chunks written plus the room left equal the room at the start |
| Output.PerformAppend | src/x509/clu_request_setup.c:414-473 | a printer that returns on its first part's failure behaves like its two parts run one after the other |
| Output.PerformWithRoom | src/x509/clu_cert_setup.c:212-490 | with room for every write and no early return, every planned chunk is written in order and the printer succeeds |
| Output.PerformNoRoom | src/x509/clu_cert_setup.c:212-490 | a sink with no room receives nothing |
| Output.PerformWritesPlanned | src/x509/clu_request_setup.c:414-473 | every chunk the sink receives is one the printer meant to write |
| Output.PerformAfterFailure | src/x509/clu_request_setup.c:414-473 | once a printer has returned WOLFSSL_FAILURE, nothing it would have done next changes the outcome |
| Output.Compose | src/x509/clu_request_setup.c:414-473 | running one part and then, from where it left the sink, the next, is running the two parts together |
| Output.Sink.Write | src/x509/clu_request_setup.c:78 | wolfSSL_BIO_write succeeds exactly when the sink has room; it then appends the chunk and uses up one write, and otherwise changes nothing |
| Output.Emit | src/x509/clu_request_setup.c:210-217 | after one more write the sink has run the plan so far followed by that write, and the write succeeds exactly when there was room |
| Output.EmitLine | src/x509/clu_request_setup.c:76-80 | a checked write of one line returns WOLFSSL_SUCCESS exactly when the line was written |
| Output.Spaces | src/x509/clu_request_setup.c:76 | the "%*s" field with an empty string is exactly n blanks |
| Text.NotPrefixAt | src/x509/clu_config.c:193-228 | words that differ at a common index are not prefixes of each other |
| Text.StrNCmpOwnLengthIsPrefix | src/x509/clu_config.c:80 | `strncmp(word, name, strlen(word)) == 0` holds exactly when word is a prefix of name |
| Text.IndexOf | src/client/clu_client_setup.c:82 | strcspn with one reject character: the index of its first occurrence, or the length when it does not occur |
| Text.RunLength | src/x509/clu_config.c:78-79 | the leading run before the delimiter holds no delimiter and ends at one or at the end |
| Text.TokensWellFormed | src/x509/clu_config.c:78-79 | strtok_r returns non-empty tokens that hold no delimiter |
| Text.TokensOfJoin | src/x509/clu_config.c:183-184 | tokenising undoes joining: a list of non-empty, delimiter-free tokens survives the round trip through its delimited text |
| Text.TrimLeadingSpaces | src/x509/clu_config.c:186-191 | the result is a suffix of the word that does not start with a blank |
| Text.LeadingDigits | src/x509/clu_config.c:93 | atoi's run of digits is the longest prefix made of digits |
| Text.AtoiOfDecimal | src/hash/clu_hash_setup.c:122 | atoi reads back what "%d" printed for a non-negative value |
| Text.AtoiOfInt | src/x509/clu_config.c:93 | atoi reads back what "%d" printed, negative values included |
| Text.DecimalInjective | src/x509/clu_config.c:306 | different numbers print differently, so the numbered keys DNS.1, DNS.2, ... are distinct |
| Text.Hex2RoundTrip | src/x509/clu_cert_setup.c:269 | the two "%02X" digits of a byte read back as that byte |
| Text.HexBytesRoundTrip | src/x509/clu_cert_setup.c:267-275 | the bytes printed one after the other as hex pairs read back as those bytes |
| Text.HexNatValue | src/x509/clu_cert_setup.c:450 | the hex digits of a number read back as that number |
| Text.Hex08Value | src/x509/clu_cert_setup.c:450 | the "%08lx" subject-hash line reads back as the hash |
| Text.Hex08Width | src/x509/clu_cert_setup.c:450 | below 2^32 the subject hash is printed with exactly eight digits |
| Text.ToLower | src/crypto/clu_crypto_setup.c:220 | lower-casing keeps the length, turns each ASCII upper-case letter into its lower-case letter (code + 32) and keeps every other character |

## Left out

- Most wolfSSL and wolfCrypt calls are inputs to the model, not code. These are PEM/DER encoding and decoding, signing and verification, hashing, the subject-key-identifier hash, `wolfSSL_a2i_IPADDRESS`, NCONF loading and the name printers. Their byte formats come from a library that is not part of this model.
- Some wolfSSL calls are taken to succeed, with no input for their failure:
  - `wolfSSL_X509_set_version` to version 1 and to version 3 (src/x509/clu_request_setup.c:742-747 and 779-784), whose failure gives WOLFCLU_FATAL_ERROR and WOLFSSL_FAILURE;
  - `wolfSSL_BIO_set_fp` to stdout (src/x509/clu_request_setup.c:768-772), whose failure gives WOLFCLU_FATAL_ERROR;
  - `wolfSSL_X509_add_ext` (src/x509/clu_config.c:275-279), `wolfSSL_X509_add_altname` and `wolfSSL_X509_add_altname_ex` (src/x509/clu_config.c:309-312 and 334-337), whose failure is only logged; the model always adds the extension or name;
  - `wolfSSL_X509_NAME_ENTRY_create_by_NID` and `wolfSSL_X509_NAME_add_entry` (src/x509/clu_config.c:415-417), whose results are ignored; the model always adds the entry.
- `wolfCLU_GetOpt`, `wolfCLU_checkForArg`, `wolfCLU_getAlgo`, `wolfCLU_checkInform`/`Outform` and `wolfCLU_hexToBin` are not part of this model. Options arrive pre-parsed, and `hexToBin` is a function parameter.
- Files, `access()` and stdout are sets of names that open or exist. A real BIO's partial writes are not modelled: a write lands whole or not at all.
- `time(NULL)` is a parameter (`lib.now`).
- Interactive input is replaced by its answers. The subject `wolfCLU_CreateX509Name` reads is `lib.prompted`. The crypto setup's password prompt (`wolfCLU_GetStdinPassword`) is a `Prompts` value: its return code, the characters it writes into `pwdKey` and the value it leaves in `keySize`. Its `scanf` prompts for a missing input or output name are part of the same value. What is printed or echoed on the terminal is not modelled.
- Allocation failures appear only as `MEMORY_E` from `wolfSSL_X509_new` and `wolfSSL_X509_NAME_new`, which are inputs. The `XMALLOC` calls of the setups are taken to succeed:
  - the sign-verify copies of -inkey, -in and -sigfile (src/sign-verify/clu_sign_verify_setup.c:85-87, 116-121 and 138-145), whose failure gives MEMORY_E;
  - the crypto buffers and the -iv and -inkey copies (src/crypto/clu_crypto_setup.c:118-133, 176-180 and 258-262), whose failure gives MEMORY_E;
  - the client's host copy (src/client/clu_client_setup.c:83-87), whose failure gives WOLFCLU_FATAL_ERROR.

  Memory layout is not modelled.
- Help and log text is left out. `wolfCLU_*Help` and `WOLFCLU_LOG` output are not part of the result.
- The network is left out. `client_test` is not modelled, and Client.ClientSetup ends with the argument vector it would be given.
- The FIPS and `#ifndef` build variants are left out. The model is the default build, so `NOT_COMPILED_IN` paths are not modelled.
- The key tools and scripts that `main` dispatches to (pkey, rsa, dh, dsa, ecparam, pkcs12, CRL and certificate verification, CA signing, sign, rand, decrypt) are left out. CluMain.MainEntry stops at the call it makes.
- Crypto.ScanOptions: a NULL `optarg` for `-pwd` or `-md` is treated as a missing value. The allocation that is then never freed is not modelled.
- Crypto.CryptSetup: buffers on the error return paths before the final clean-up are not shown being zeroed. Only the final `XMEMSET` of key, password and IV is modelled.
- Crypto.Clear: a buffer shorter than its `XMEMSET` length is cleared only inside its bounds. That happens when the password prompt leaves a `keySize` above the allocation, or when `wolfCLU_hexToBin` hands back a short key or IV. The write past the end is not modelled, because those two functions are not part of this model.
- Crypto.CryptSetup: the whole password buffer is promised zero only when the size the prompt leaves covers the characters it typed. The code of `wolfCLU_GetStdinPassword` is not part of this model, so the model cannot show that it sets the size to the password's length.
- Crypto.BytesForBits: `keySize` is unbounded here. The `word32` wrap-around of `(keySize+7)/8` is not modelled, because key sizes stay far below 2^32.
- Hash.HashSetup: the requirement that `argv[2]` exists is a precondition. The BIO opened for `-in` and not freed on the hash error paths is not modelled.
- RequestRules.VerifyOnlyLogged: only the verdict's effect on the result is stated. The log message it produces is not modelled.
- CertSetup.CertSetup: `wolfSSL_X509_get_subject_name` is taken never to return NULL, and the stdout BIO created by the setup is taken to succeed.
- CertSetup.PrintOne: the code tests some writes with `< 0` and others with `<= 0`. That difference matters only for a zero-length write, which the model does not have.
- CertSetup.Describe: each library printer (`wolfSSL_X509_print`, `wolfSSL_X509_NAME_print_ex`, the public-key printer) is one chunk. Its result code is WOLFSSL_SUCCESS or a failure, as the oracle says.
- CertSetup.EmailOf: an email address with an embedded NUL is not modelled. Strings here hold no NUL.
- CertSetup.CertSetup: `-silent` sets a flag that nothing reads, so the model ignores it.
- CertSetup.PrintFingerprint: the digest bytes and their number come from the hashing oracle.
- The model keeps two oddities of the source, because they are not clearly unintended. The crypto setup's `-output` sets the input name, as the code's fall-through does (Crypto.LoweredFallsThrough). An unopenable `x509 -out` file falls back to stdout (CertSetup.OpenInput).

## Findings

| source | as written | input that shows it | evidently intended | confidence | as-written member | corrected member |
|---|---|---|---|---|---|---|
| src/x509/clu_request_setup.c:333-339 | after the dump loop the buffered line is written only when `(i - 1) % 18 != 0` | a signature of 1 byte, or of 18k + 1 bytes: its last line, holding the last byte, is never written | write the buffered line whenever the signature is not empty | not executed | RequestPrint.AsWrittenDropsLastLine | RequestPrint.SigLinesContent |
| src/x509/clu_config.c:253 | `strstr("critical", str)` looks for the value inside the literal | "critical,CA:TRUE" is not critical, while "" and "it" are | `strstr(str, "critical")`: the value mentions the word | not executed | Config.AsWrittenCriticalMisreads | Config.CriticalAnywhere |
| src/x509/clu_config.c:305-307 | `snprintf(name, 6, "DNS.%d", i)` cuts the key to five characters | a section with DNS.1 to DNS.9: for i = 10 the key is "DNS.1" again, so DNS.10 is never read and the do-while loop never stops | the whole key, in a buffer sized for it (`name[7]` holds keys only up to DNS.99) | not executed | Config.AsWrittenDnsNeverStops | Config.DnsRunReadsAll |
| src/x509/clu_config.c:320-321 | `snprintf(name, 6, "IP.%d", i)` cuts the key to five characters | a section with IP.1 to IP.99: for i = 100 the key is "IP.10" again, so IP.100 is never read and the do-while loop never stops | the whole key, in a buffer sized for it | not executed | Config.AsWrittenIpNeverStops | Config.IpRunReadsAll |
| src/client/clu_client_setup.c:81-124 | every -connect allocates a host and appends four entries to the 10-entry clientArgv | `-connect a:1 -connect b:2`: 13 entries, and the first host is never freed | one target, a later -connect replacing the earlier one | not executed | Client.TwoConnectsOverflow | Client.TakeConnect |
| src/client/clu_client_setup.c:102-104 | -help returns without freeing the host of an earlier -connect | `-connect a:1 -help` | free the host before returning | not executed | Client.HelpAfterConnectLeaks | Client.ClientSetup |
| src/hash/clu_hash_setup.c:107 | the -out file is opened with mode "rb" | `-out` naming a file that does not exist yet: USER_INPUT_ERROR | open the output for writing, as the message "unable to open output file" says | not executed | Hash.DecideAsWritten | Hash.NewOutputFile |
| src/crypto/clu_crypto_setup.c:176-183 | the -iv copy, like the -inkey copy at lines 258-265, is `XMALLOC(XSTRLEN(optarg))` and `XSTRNCPY` of that many characters, so it has no NUL inside its allocation | any -iv value: wolfCLU_hexToBin reads past the buffer | allocate one more byte and end the copy with a NUL | not executed | Crypto.HexArgCopy | Crypto.TerminatedCopy |
