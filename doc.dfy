/** The certificate / certificate-request document that wolfSSL holds for the
    tool (a PKCS#10 request, RFC 2986, or an X.509 certificate, RFC 5280).
    Only the fields wolfCLU reads or changes are kept; their DER encoding
    belongs to the library and is not modelled. */
module Document {
  import opened Common

  /** X.509 version numbers as stored (wolfSSL's WOLFSSL_X509_V1 / V3). */
  const X509_V1: int := 0
  const X509_V3: int := 2

  /** Object identifiers (NIDs) of the extensions the config code writes. */
  const NID_basic_constraints: int := 87
  const NID_subject_key_identifier: int := 82
  const NID_key_usage: int := 83
  const NID_subject_alt_name: int := 85
  const NID_authority_key_identifier: int := 90

  /** The key algorithms wolfSSL_EVP_PKEY_base_id can report. */
  datatype KeyKind = RsaKey | DsaKey | EcKey | DhKey | Ed25519Key | OtherKey

  /** A key pair held by the tool; `id` tells distinct keys apart. */
  datatype Key = Key(kind: KeyKind, id: nat)

  /** Digests a request can be signed with. */
  datatype Digest = Sha1 | Sha224 | Sha256 | Sha384 | Sha512

  /** Distinguished-name attribute types used by the config reader. */
  datatype NameField =
    | CountryName | StateOrProvinceName | LocalityName | OrganizationName
    | OrganizationalUnitName | CommonName | EmailAddress

  /** ASN.1 string type of a name entry (CTC_PRINTABLE / CTC_UTF8). */
  datatype StringType = Printable | Utf8

  datatype NameEntry = NameEntry(field: NameField, strType: StringType, value: string)

  /** A subjectAltName entry: a DNS name, or the octets of an IP address. */
  datatype AltName = DnsName(dns: string) | IpAddress(octets: seq<byte>)

  /** The contents of the extensions wolfCLU builds. */
  datatype ExtValue =
    | BasicConstraints(ca: bool, pathLen: Option<int>)
    | SubjectKeyId(keyId: seq<byte>)
    | KeyUsage(bits: bv16)
    | OtherValue

  datatype Extension = Extension(nid: int, critical: bool, value: ExtValue)

  /** Who signed the document, with which digest, and as what. */
  datatype Signing = Signing(signer: Key, digest: Digest, asCert: bool)

  /** `extKeyUsage` is the unsigned 32-bit flag word that
      wolfSSL_X509_get_extended_key_usage reports. */
  datatype Doc = Doc(
    version: int,
    serial: seq<byte>,
    subject: seq<NameEntry>,
    issuer: seq<NameEntry>,
    pubKey: Option<Key>,
    notBefore: Option<int>,
    notAfter: Option<int>,
    extensions: seq<Extension>,
    altNames: seq<AltName>,
    signature: seq<byte>,
    signedBy: Option<Signing>,
    extKeyUsage: nat)

  /** What wolfSSL_X509_new hands back: an empty document. */
  function FreshDoc(): Doc {
    Doc(X509_V1, [], [], [], None, None, None, [], [], [], None, 0)
  }

  /** The WOLFSSL_X509 object the commands change in place. */
  class Cert {
    var doc: Doc

    constructor (d: Doc)
      ensures doc == d
    {
      doc := d;
    }
  }
}
