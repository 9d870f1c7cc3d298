/** The output BIO the commands write to. A write either succeeds and appends
    its chunk, or fails and appends nothing; `room` is the number of writes
    that still succeed, so an unopened BIO is a sink with no room and a full
    disk is one whose room runs out. The library's own printers and encoders
    (name, time, key and certificate renderings, PEM and DER) are chunks that
    name what was rendered rather than its bytes. */
module Output {
  import opened Common
  import opened Document

  /** Text rendered by wolfSSL rather than by wolfCLU. */
  datatype Rendering =
    | NameLine(name: seq<NameEntry>)          // wolfSSL_X509_NAME_oneline
    | NameText(name: seq<NameEntry>)          // wolfSSL_X509_NAME_print_ex
    | TimeText(time: int)                     // wolfSSL_ASN1_TIME_print
    | PublicKeyText(key: Option<Key>)         // wolfSSL_EVP_PKEY_print_public
    | ExtensionHeading(indent: nat, nid: int, critical: bool)  // object name + ": Critical" / ":"
    | AltNameText(indent: nat, alt: AltName) // one wolfSSL_X509_get_next_altname line
    | ExtKeyUsageText(usage: nat)             // wolfCLU_extKeyUsagePrint
    | CertText(doc: Doc)                      // wolfSSL_X509_print
    | SignatureAlgorithm(doc: Doc)            // signature OID name + "\n"
    | CertPublicKey(doc: Doc)                 // wolfCLU_printX509PubKey

  datatype Chunk =
    | Text(s: string)
    | Render(r: Rendering)
    | Encoding(form: Form, asCert: bool, doc: Doc)   // PEM or DER of a certificate / request

  /** One step of a printer: a write whose failure the printer reports
      (`checked`) or ignores, or a return with failure that writes nothing. */
  datatype Step = Put(chunk: Chunk, checked: bool) | Abort

  /** What a sequence of steps leaves behind: the chunks written, the room
      left, and whether the printer reports success. */
  datatype Outcome = Outcome(written: seq<Chunk>, left: nat, ok: bool)

  /** Runs the steps against a sink with `room` successful writes left. The
      first failed checked write or Abort ends the run with failure; a failed
      unchecked write is skipped. */
  function Perform(p: seq<Step>, room: nat): (o: Outcome)
    ensures |o.written| + o.left == room
  {
    if p == [] then Outcome([], room, true)
    else match p[0]
      case Abort => Outcome([], room, false)
      case Put(c, checked) =>
        if room > 0 then
          var o := Perform(p[1..], room - 1);
          Outcome([c] + o.written, o.left, o.ok)
        else if checked then Outcome([], 0, false)
        else Perform(p[1..], 0)
  }

  /** Runs q after an outcome, unless that outcome already failed. */
  function Then(o: Outcome, q: seq<Step>): Outcome {
    if !o.ok then o
    else
      var o2 := Perform(q, o.left);
      Outcome(o.written + o2.written, o2.left, o2.ok)
  }

  /** A printer made of two parts that returns on the first part's failure
      behaves like the parts run one after the other. */
  lemma {:induction false} PerformAppend(p: seq<Step>, q: seq<Step>, room: nat)
    ensures Perform(p + q, room) == Then(Perform(p, room), q)
  {
    if p == [] {
      assert p + q == q;
    } else {
      assert (p + q)[1..] == p[1..] + q;
      assert (p + q)[0] == p[0];
      match p[0]
      case Abort =>
      case Put(c, checked) =>
        if room > 0 {
          PerformAppend(p[1..], q, room - 1);
        } else if !checked {
          PerformAppend(p[1..], q, 0);
        }
    }
  }

  function Chunks(p: seq<Step>): seq<Chunk> {
    if p == [] then []
    else match p[0]
      case Abort => Chunks(p[1..])
      case Put(c, _) => [c] + Chunks(p[1..])
  }

  predicate NoAbort(p: seq<Step>) {
    forall i :: 0 <= i < |p| ==> p[i].Put?
  }

  /** With room for every write and no early return, every chunk is written
      in order and the printer reports success. */
  lemma {:induction false} PerformWithRoom(p: seq<Step>, room: nat)
    requires NoAbort(p) && |p| <= room
    ensures Perform(p, room) == Outcome(Chunks(p), room - |p|, true)
  {
    if p != [] {
      assert p[0].Put?;
      PerformWithRoom(p[1..], room - 1);
    }
  }

  /** A sink with no room receives nothing. */
  lemma {:induction false} PerformNoRoom(p: seq<Step>)
    ensures Perform(p, 0).written == []
  {
    if p != [] && p[0].Put? && !p[0].checked {
      PerformNoRoom(p[1..]);
    }
  }

  /** Every chunk the sink receives was one the printer meant to write. */
  lemma {:induction false} PerformWritesPlanned(p: seq<Step>, room: nat, c: Chunk)
    requires c in Perform(p, room).written
    ensures c in Chunks(p)
  {
    if p != [] {
      match p[0]
      case Abort =>
      case Put(c0, checked) =>
        if room > 0 {
          if c != c0 {
            PerformWritesPlanned(p[1..], room - 1, c);
          }
        } else {
          PerformNoRoom(p);
          assert false;
        }
    }
  }

  /** Once a printer has failed, nothing it would do next changes the
      outcome: it has already returned. */
  lemma PerformAfterFailure(p: seq<Step>, q: seq<Step>, room: nat)
    requires !Perform(p, room).ok
    ensures Perform(p + q, room) == Perform(p, room)
  {
    PerformAppend(p, q, room);
  }

  /** A printer's return code for its outcome. */
  function Code(ok: bool): int {
    if ok then WOLFSSL_SUCCESS else WOLFSSL_FAILURE
  }

  /** Running p and then, from where p left the sink, q, is running p + q. */
  lemma Compose(p: seq<Step>, q: seq<Step>, c0: seq<Chunk>, r0: nat,
                c1: seq<Chunk>, r1: nat, c2: seq<Chunk>, r2: nat)
    requires Perform(p, r0).ok
    requires c1 == c0 + Perform(p, r0).written && r1 == Perform(p, r0).left
    requires c2 == c1 + Perform(q, r1).written && r2 == Perform(q, r1).left
    ensures c2 == c0 + Perform(p + q, r0).written && r2 == Perform(p + q, r0).left
    ensures Perform(p + q, r0).ok == Perform(q, r1).ok
  {
    PerformAppend(p, q, r0);
  }

  /** The output BIO. */
  class Sink {
    var chunks: seq<Chunk>
    var room: nat

    constructor (room0: nat)
      ensures chunks == [] && room == room0
    {
      chunks := [];
      room := room0;
    }

    /** The sink's state after running p from chunks c0 and room r0. */
    predicate Ran(p: seq<Step>, c0: seq<Chunk>, r0: nat)
      reads this
    {
      chunks == c0 + Perform(p, r0).written && room == Perform(p, r0).left
    }

    /** wolfSSL_BIO_write and the library writers: true when the chunk was
        written. */
    method Write(c: Chunk) returns (ok: bool)
      modifies this
      ensures ok == (old(room) > 0)
      ensures ok ==> chunks == old(chunks) + [c] && room == old(room) - 1
      ensures !ok ==> chunks == old(chunks) && room == old(room)
    {
      if room > 0 {
        chunks := chunks + [c];
        room := room - 1;
        ok := true;
      } else {
        ok := false;
      }
    }
  }

  /** One write of a printer that has run plan p so far without failing:
      afterwards it has run p followed by this write. */
  method Emit(sink: Sink, c: Chunk, checked: bool, ghost p: seq<Step>,
              ghost c0: seq<Chunk>, ghost r0: nat) returns (ok: bool)
    requires sink.Ran(p, c0, r0) && Perform(p, r0).ok
    modifies sink
    ensures sink.Ran(p + [Put(c, checked)], c0, r0)
    ensures ok == (old(sink.room) > 0)
    ensures Perform(p + [Put(c, checked)], r0).ok == (ok || !checked)
  {
    ok := sink.Write(c);
    var q := [Put(c, checked)];
    PerformAppend(p, q, r0);
    assert q[1..] == [];
    assert Perform(q, old(sink.room)) ==
      if ok then Outcome([c], old(sink.room) - 1, true) else Outcome([], 0, !checked);
  }

  /** A checked write of one piece of text: `if (wolfSSL_BIO_write(...) <= 0)
      return WOLFSSL_FAILURE;`. */
  method EmitLine(sink: Sink, s: string) returns (r: int)
    modifies sink
    ensures sink.Ran([Put(Text(s), true)], old(sink.chunks), old(sink.room))
    ensures r == Code(Perform([Put(Text(s), true)], old(sink.room)).ok)
  {
    var ok := Emit(sink, Text(s), true, [], sink.chunks, sink.room);
    assert [] + [Put(Text(s), true)] == [Put(Text(s), true)];
    r := Code(ok);
  }

  /** n blanks: the "%*s" field of the printers. */
  function Spaces(n: nat): (s: string)
    ensures |s| == n && forall j :: 0 <= j < n ==> s[j] == ' '
  {
    if n == 0 then [] else [' '] + Spaces(n - 1)
  }
}
