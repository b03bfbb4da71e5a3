/**
 * The fragment of Go's `time` and `crypto/x509` types that the SUDI
 * certificate template fills in. Every other field of `x509.Certificate`
 * keeps its zero value in the template and is not represented.
 */
module X509 {

  /** A `time.Location`: the template only ever names UTC explicitly. */
  datatype Location = UTC | Local

  /** A `time.Time` by its calendar fields, as given to `time.Date`. */
  datatype Time = Time(year: int, month: int, day: int,
                       hour: int, minute: int, second: int, nanosecond: int,
                       loc: Location)

  /** `x509.KeyUsage` is a bit set: one bit per usage, `1 << iota` in declaration order. */
  type KeyUsage = bv16

  datatype KeyUsageBit =
    | DigitalSignature | ContentCommitment | KeyEncipherment | DataEncipherment
    | KeyAgreement | CertSign | CRLSign | EncipherOnly | DecipherOnly

  /** The constant `x509.KeyUsage<k>`. */
  function Bit(k: KeyUsageBit): KeyUsage
  {
    match k
    case DigitalSignature => 1
    case ContentCommitment => 2
    case KeyEncipherment => 4
    case DataEncipherment => 8
    case KeyAgreement => 16
    case CertSign => 32
    case CRLSign => 64
    case EncipherOnly => 128
    case DecipherOnly => 256
  }

  const AllKeyUsageBits: set<KeyUsageBit> :=
    {DigitalSignature, ContentCommitment, KeyEncipherment, DataEncipherment,
     KeyAgreement, CertSign, CRLSign, EncipherOnly, DecipherOnly}

  /** The usages whose bits are set in a `KeyUsage` value. */
  function Usages(mask: KeyUsage): set<KeyUsageBit>
  {
    set k | k in AllKeyUsageBits && mask & Bit(k) != 0
  }

  /** `x509.ExtKeyUsage`, in declaration order. */
  datatype ExtKeyUsage =
    | Any | ServerAuth | ClientAuth | CodeSigning | EmailProtection
    | IPSECEndSystem | IPSECTunnel | IPSECUser | TimeStamping | OCSPSigning
    | MicrosoftServerGatedCrypto | NetscapeServerGatedCrypto
    | MicrosoftCommercialCodeSigning | MicrosoftKernelCodeSigning

  /** The two `pkix.Name` attributes the template sets. */
  datatype Name = Name(serialNumber: string, commonName: string)

  /** The `x509.Certificate` fields the template sets. */
  datatype Certificate = Certificate(
    subject: Name,
    notBefore: Time,
    notAfter: Time,
    keyUsage: KeyUsage,
    extKeyUsage: seq<ExtKeyUsage>)
}
