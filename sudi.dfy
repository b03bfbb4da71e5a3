/**
 * SUDI issuance for one VM: `doSudiCert` and `newCertTemplate`.
 *
 * `Issue` is the specification of one `doSudiCert` call as a function of
 * the collaborators' answers (`Env`) and the filesystem before the call: it
 * gives the returned error, the filesystem afterwards and the trace of
 * collaborator and filesystem calls made, in order. `Host.DoSudiCert` is
 * the step-by-step procedure with early returns, proved equal to `Issue`.
 */
module Sudi {
  import opened Os
  import opened X509

  const KeyFile := "privkey.pem"
  const CertFile := "cert.pem"
  /** `manifest/uuid` under the trust directory. */
  const UuidFile: Path := ["manifest", "uuid"]
  /** The CA every SUDI certificate is signed by. */
  const CaName := "sudi-ca"
  const NameRequired := "VM name must be provided"
  const NotInitialized := " has not been initialized"
  /** `time.Date(2099, time.December, 31, 23, 0, 0, 0, time.UTC)`. */
  const NotAfterSentinel := Time(2099, 12, 31, 23, 0, 0, 0, UTC)

  /** The certificate and private key `getCA` hands back. */
  datatype Authority = Authority(cert: string, key: string)

  /** The key and certificate text `SignCert` writes. */
  datatype Credential = Credential(key: string, cert: string)

  /**
   * What the collaborators answer during one call: the configuration path of
   * a VM (`ConfPath`), the SUDI and trust directories (`getSudiDir`,
   * `getTrustPath`), the CA lookup (`getCA`) and the signer (`SignCert`).
   */
  datatype Env = Env(
    confPath: string -> Path,
    sudiDir: Result<Path>,
    trustDir: Result<Path>,
    getCA: (string, string) -> Result<Authority>,
    sign: (Certificate, Authority, Path) -> Result<Credential>)

  /** One collaborator or filesystem call, with the arguments it was given. */
  datatype Event =
    | ProbeConfig(path: Path)
    | ResolveSudiDir
    | StatPath(path: Path)
    | ResolveTrustDir
    | Read(path: Path)
    | ResolveCA(name: string, keyset: string)
    | Mkdir(path: Path)
    | Sign(template: Certificate, ca: Authority, dir: Path)

  /** The outcome of one call: the returned error, the new filesystem, the calls made. */
  datatype Run = Run(status: Status, fs: FileSystem, trace: seq<Event>)

  /** `newCertTemplate(productUUID, machineUUID)`, with `time.Now()` passed in as `now`. */
  function NewCertTemplate(productUUID: string, machineUUID: string, now: Time): (t: Certificate)
    ensures t.subject.commonName == machineUUID
    ensures t.subject.serialNumber == "PID:" + productUUID + " SN:" + t.subject.commonName
    ensures Usages(t.keyUsage) == {DigitalSignature, KeyEncipherment, DataEncipherment}
    // no other bit is set: 1 | 4 | 8
    ensures t.keyUsage == 13
    ensures t.extKeyUsage == [ServerAuth, ClientAuth]
    ensures t.notBefore == now && t.notAfter == NotAfterSentinel
  {
    var usage := Bit(DigitalSignature) | Bit(KeyEncipherment) | Bit(DataEncipherment);
    assert Usages(usage) == {DigitalSignature, KeyEncipherment, DataEncipherment} by {
      forall k | k in AllKeyUsageBits
        ensures k in Usages(usage) <==> k in {DigitalSignature, KeyEncipherment, DataEncipherment}
      {
      }
    }
    Certificate(
      Name("PID:" + productUUID + " SN:" + machineUUID, machineUUID),
      now,
      NotAfterSentinel,
      usage,
      [ServerAuth, ClientAuth])
  }

  /** The VM's configuration exists. */
  predicate Initialized(env: Env, fs: FileSystem, vmName: string)
  {
    env.confPath(vmName) in fs
  }

  /** A key or a certificate is present in the VM's SUDI directory. */
  predicate CredentialExists(fs: FileSystem, sudiPath: Path)
  {
    Join(sudiPath, KeyFile) in fs || Join(sudiPath, CertFile) in fs
  }

  /** Both the key and the certificate are present. */
  predicate CredentialComplete(fs: FileSystem, sudiPath: Path)
  {
    Join(sudiPath, KeyFile) in fs && Join(sudiPath, CertFile) in fs
  }

  /** Every entry of `fs` is still there, unchanged, in `fs'`. */
  predicate Preserves(fs: FileSystem, fs': FileSystem)
  {
    forall p :: p in fs ==> p in fs' && fs'[p] == fs[p]
  }

  /** `p` is the VM's SUDI directory, one of its ancestors, or one of its two files. */
  predicate InVmTree(p: Path, sudiPath: Path)
  {
    (0 < |p| && p <= sudiPath) || p == Join(sudiPath, KeyFile) || p == Join(sudiPath, CertFile)
  }

  /** The filesystem after `SignCert` wrote a credential into `dir`. */
  function WriteCredential(fs: FileSystem, dir: Path, cred: Credential): (fs': FileSystem)
    ensures CredentialComplete(fs', dir)
    ensures fs'[Join(dir, KeyFile)] == File(cred.key) && fs'[Join(dir, CertFile)] == File(cred.cert)
    ensures forall p :: p in fs' <==> p in fs || p == Join(dir, KeyFile) || p == Join(dir, CertFile)
    ensures forall p :: p in fs && p != Join(dir, KeyFile) && p != Join(dir, CertFile) ==> fs'[p] == fs[p]
  {
    fs[Join(dir, KeyFile) := File(cred.key)][Join(dir, CertFile) := File(cred.cert)]
  }

  /**
   * The second half of `doSudiCert`, reached once neither credential file
   * exists: read the product UUID, build the template, fetch the CA,
   * create the directory, sign.
   */
  function Provision(env: Env, fs: FileSystem, sudiPath: Path, keyset: string,
                     machineUUID: string, now: Time): (r: Run)
    // the trust directory is resolved first, and at most five calls are made
    ensures 0 < |r.trace| <= 5 && r.trace[0] == ResolveTrustDir
    // a nil error means every step ran, through the signer
    ensures r.status == Nil ==> |r.trace| == 5
  {
    var checked := [ResolveTrustDir];
    match env.trustDir
    case Failure(e) => Run(Fail(e), fs, checked)
    case Success(trustDir) =>
      var uuidPath := trustDir + UuidFile;
      var read := checked + [Read(uuidPath)];
      match ReadFile(fs, uuidPath)
      case Failure(e) => Run(Fail(e), fs, read)
      case Success(content) =>
        var template := NewCertTemplate(content, machineUUID, now);
        var resolved := read + [ResolveCA(CaName, keyset)];
        match env.getCA(CaName, keyset)
        case Failure(e) => Run(Fail(e), fs, resolved)
        case Success(ca) =>
          var created := resolved + [Mkdir(sudiPath)];
          match MkdirAll(fs, sudiPath)
          case Failure(e) => Run(Fail(e), fs, created)
          case Success(fs') =>
            var signed := created + [Sign(template, ca, sudiPath)];
            match env.sign(template, ca, sudiPath)
            case Failure(e) => Run(Fail(e), fs', signed)
            case Success(cred) => Run(Nil, WriteCredential(fs', sudiPath, cred), signed)
  }

  /**
   * One `doSudiCert(vmName, keyset)` call, with `uuid.NewString()` and
   * `time.Now()` passed in as `machineUUID` and `now`.
   */
  function Issue(env: Env, fs: FileSystem, vmName: string, keyset: string,
                 machineUUID: string, now: Time): (r: Run)
    // no call is made exactly when the name is empty; otherwise the first is the configuration probe
    ensures r.trace == [] <==> vmName == ""
    ensures r.trace != [] ==> r.trace[0] == ProbeConfig(env.confPath(vmName))
    // at most four checks and the five provisioning calls
    ensures |r.trace| <= 9
  {
    if vmName == "" then Run(Fail(Message(NameRequired)), fs, [])
    else
      var cPath := env.confPath(vmName);
      var probed := [ProbeConfig(cPath)];
      if cPath !in fs then Run(Fail(Message(vmName + NotInitialized)), fs, probed)
      else
        var resolved := probed + [ResolveSudiDir];
        match env.sudiDir
        case Failure(e) => Run(Fail(e), fs, resolved)
        case Success(sudiDir) =>
          var sudiPath := Join(sudiDir, vmName);
          var keyErr := Stat(fs, Join(sudiPath, KeyFile));
          var keyChecked := resolved + [StatPath(Join(sudiPath, KeyFile))];
          if keyErr == Nil then Run(keyErr, fs, keyChecked)
          else
            var certErr := Stat(fs, Join(sudiPath, CertFile));
            var certChecked := keyChecked + [StatPath(Join(sudiPath, CertFile))];
            if certErr == Nil then Run(certErr, fs, certChecked)
            else
              var r := Provision(env, fs, sudiPath, keyset, machineUUID, now);
              Run(r.status, r.fs, certChecked + r.trace)
  }

  /**
   * Sequence concatenation is associative. Dafny knows this already; the
   * explicit calls in `Host` only keep the proofs that the traces match cheap.
   */
  lemma AppendAssoc<T>(a: seq<T>, b: seq<T>, c: seq<T>)
    ensures (a + b) + c == a + (b + c)
  {
  }

  /**
   * The process environment `doSudiCert` runs in: the filesystem it changes,
   * the collaborators it consults, and (for the proofs) the calls made so far.
   */
  class Host {
    const env: Env
    var fs: FileSystem
    ghost var trace: seq<Event>

    constructor (env: Env, fs: FileSystem)
      ensures this.env == env && this.fs == fs && trace == []
    {
      this.env := env;
      this.fs := fs;
      trace := [];
    }

    /** `PathExists(ConfPath(vmName))`. */
    method PathExists(p: Path) returns (found: bool)
      modifies this`trace
      ensures found <==> p in fs
      ensures trace == old(trace) + [ProbeConfig(p)]
    {
      found := p in fs;
      trace := trace + [ProbeConfig(p)];
    }

    method GetSudiDir() returns (r: Result<Path>)
      modifies this`trace
      ensures r == env.sudiDir && trace == old(trace) + [ResolveSudiDir]
    {
      r := env.sudiDir;
      trace := trace + [ResolveSudiDir];
    }

    method Stat(p: Path) returns (err: Status)
      modifies this`trace
      ensures err == Os.Stat(fs, p) && trace == old(trace) + [StatPath(p)]
    {
      err := Os.Stat(fs, p);
      trace := trace + [StatPath(p)];
    }

    method GetTrustPath() returns (r: Result<Path>)
      modifies this`trace
      ensures r == env.trustDir && trace == old(trace) + [ResolveTrustDir]
    {
      r := env.trustDir;
      trace := trace + [ResolveTrustDir];
    }

    method ReadFile(p: Path) returns (r: Result<string>)
      modifies this`trace
      ensures r == Os.ReadFile(fs, p) && trace == old(trace) + [Read(p)]
    {
      r := Os.ReadFile(fs, p);
      trace := trace + [Read(p)];
    }

    method GetCA(name: string, keyset: string) returns (r: Result<Authority>)
      modifies this`trace
      ensures r == env.getCA(name, keyset) && trace == old(trace) + [ResolveCA(name, keyset)]
    {
      r := env.getCA(name, keyset);
      trace := trace + [ResolveCA(name, keyset)];
    }

    method MkdirAll(p: Path) returns (err: Status)
      modifies this
      ensures trace == old(trace) + [Mkdir(p)]
      ensures Os.MkdirAll(old(fs), p).Failure? ==>
                err == Fail(Os.MkdirAll(old(fs), p).error) && fs == old(fs)
      ensures Os.MkdirAll(old(fs), p).Success? ==>
                err == Nil && fs == Os.MkdirAll(old(fs), p).value
    {
      match Os.MkdirAll(fs, p) {
        case Failure(e) =>
          err := Fail(e);
        case Success(fs') =>
          fs := fs';
          err := Nil;
      }
      trace := trace + [Mkdir(p)];
    }

    method SignCert(template: Certificate, ca: Authority, dir: Path) returns (err: Status)
      modifies this
      ensures trace == old(trace) + [Sign(template, ca, dir)]
      ensures env.sign(template, ca, dir).Failure? ==>
                err == Fail(env.sign(template, ca, dir).error) && fs == old(fs)
      ensures env.sign(template, ca, dir).Success? ==>
                err == Nil && fs == WriteCredential(old(fs), dir, env.sign(template, ca, dir).value)
    {
      match env.sign(template, ca, dir) {
        case Failure(e) =>
          err := Fail(e);
        case Success(cred) =>
          fs := WriteCredential(fs, dir, cred);
          err := Nil;
      }
      trace := trace + [Sign(template, ca, dir)];
    }

    /** `doSudiCert(vmName, keyset)`: generate the VM's SUDI key and certificate. */
    method DoSudiCert(vmName: string, keyset: string, machineUUID: string, now: Time)
      returns (err: Status)
      modifies this
      ensures var r := Issue(env, old(fs), vmName, keyset, machineUUID, now);
              err == r.status && fs == r.fs && trace == old(trace) + r.trace
    {
      if vmName == "" {
        return Fail(Message(NameRequired));
      }

      var cPath := env.confPath(vmName);
      var initialized := PathExists(cPath);
      if !initialized {
        return Fail(Message(vmName + NotInitialized));
      }

      var sudiDirResult := GetSudiDir();
      AppendAssoc(old(trace), [ProbeConfig(cPath)], [ResolveSudiDir]);
      if sudiDirResult.Failure? {
        return Fail(sudiDirResult.error);
      }
      var sudiPath := Join(sudiDirResult.value, vmName);
      ghost var resolved := [ProbeConfig(cPath)] + [ResolveSudiDir];
      err := Stat(Join(sudiPath, KeyFile));
      AppendAssoc(old(trace), resolved, [StatPath(Join(sudiPath, KeyFile))]);
      if err == Nil {
        return err;
      }
      ghost var keyChecked := resolved + [StatPath(Join(sudiPath, KeyFile))];
      err := Stat(Join(sudiPath, CertFile));
      AppendAssoc(old(trace), keyChecked, [StatPath(Join(sudiPath, CertFile))]);
      if err == Nil {
        return err;
      }

      ghost var certChecked := keyChecked + [StatPath(Join(sudiPath, CertFile))];
      ghost var mid := trace;
      err := ProvisionCredential(sudiPath, keyset, machineUUID, now);
      AppendAssoc(old(trace), certChecked, trace[|mid|..]);
    }

    /**
     * The rest of `doSudiCert` once neither credential file exists: read the
     * product UUID, build the template, fetch the CA, create the directory, sign.
     */
    method ProvisionCredential(sudiPath: Path, keyset: string, machineUUID: string, now: Time)
      returns (err: Status)
      modifies this
      ensures var r := Provision(env, old(fs), sudiPath, keyset, machineUUID, now);
              err == r.status && fs == r.fs && trace == old(trace) + r.trace
    {
      var trustDirResult := GetTrustPath();
      if trustDirResult.Failure? {
        return Fail(trustDirResult.error);
      }
      var uuidPath := trustDirResult.value + UuidFile;
      var content := ReadFile(uuidPath);
      AppendAssoc(old(trace), [ResolveTrustDir], [Read(uuidPath)]);
      if content.Failure? {
        return Fail(content.error);
      }
      var productUUID := content.value;

      var certTemplate := NewCertTemplate(productUUID, machineUUID, now);

      ghost var read := [ResolveTrustDir] + [Read(uuidPath)];
      var ca := GetCA(CaName, keyset);
      AppendAssoc(old(trace), read, [ResolveCA(CaName, keyset)]);
      if ca.Failure? {
        return Fail(ca.error);
      }

      ghost var resolved := read + [ResolveCA(CaName, keyset)];
      err := MkdirAll(sudiPath);
      AppendAssoc(old(trace), resolved, [Mkdir(sudiPath)]);
      if err != Nil {
        return err;
      }
      ghost var created := resolved + [Mkdir(sudiPath)];
      err := SignCert(certTemplate, ca.value, sudiPath);
      AppendAssoc(old(trace), created, [Sign(certTemplate, ca.value, sudiPath)]);
      if err != Nil {
        return err;
      }
      return Nil;
    }
  }
}
