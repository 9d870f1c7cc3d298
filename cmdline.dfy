/** The command line as the setup functions see it: argv, and the answers
    of wolfCLU_checkForArg, whose matching rules are not part of this model. */
module CommandLine {

  /** `found[name]` is what wolfCLU_checkForArg returns for `name`: the index
      of the option in argv when it is present (a positive number), and a
      value <= 0 otherwise; a name missing from the map gets 0. */
  datatype ArgLine = ArgLine(argv: seq<string>, found: map<string, int>)

  function Search(line: ArgLine, name: string): int {
    if name in line.found then line.found[name] else 0
  }

  predicate Present(line: ArgLine, name: string) {
    Search(line, name) > 0
  }

  /** The option `name`, when it is found, has a value after it: a setup
      that reads argv[ret+1] for an option does so without a check, so this
      is what it demands of the options it reads; flags such as -text or
      -noout demand nothing. */
  predicate HasValue(line: ArgLine, name: string) {
    Present(line, name) ==> Search(line, name) + 1 < |line.argv|
  }

  /** argv[ret+1] for the option `name`. */
  function ValueOf(line: ArgLine, name: string): string
    requires HasValue(line, name) && Present(line, name)
  {
    line.argv[Search(line, name) + 1]
  }

  /** A C string holding `s`: its characters and the NUL after them. */
  function CString(s: string): seq<char> {
    s + ['\0']
  }

  /** XMALLOC(strlen(s) + 1), XSTRNCPY of strlen(s) characters and the NUL
      written after them. */
  method CopyArg(s: string) returns (buf: array<char>)
    ensures buf[..] == CString(s)
  {
    buf := new char[|s| + 1];
    var i := 0;
    while i < |s|
      invariant 0 <= i <= |s|
      invariant forall k :: 0 <= k < i ==> buf[k] == s[k]
    {
      buf[i] := s[i];
      i := i + 1;
    }
    buf[|s|] := '\0';
    assert buf[..] == CString(s);
  }
}
