# SUDI issuance, modelled in Dafny

This project models the SUDI issuance command of `trust`: `doSudiCert(VMname, keyset)`.
The command gives a virtual machine its device-identity credential, a private key and
a certificate signed by the local `sudi-ca` certificate authority. The credential goes
into `<sudiDir>/<VMname>/privkey.pem` and `cert.pem`. The certificate subject binds two
identifiers: the host's product UUID, read verbatim from `<trustDir>/manifest/uuid`, and
a fresh machine UUID.

The model has five modules:

- `Os` (`os.dfy`) is an abstract filesystem: a map from paths to directories or files.
  A path is a list of components. The module also gives the meaning of the three
  standard-library calls the command makes: `os.Stat`, `os.ReadFile` and `os.MkdirAll`.
- `X509` (`x509.dfy`) holds the fields of `x509.Certificate` that the template sets. It
  also has Go's `time.Time` by calendar fields and the `x509.KeyUsage` bit set.
- `Sudi` (`sudi.dfy`) holds the command itself:
  - `NewCertTemplate` is `newCertTemplate`.
  - `Env` holds the collaborators' answers: `ConfPath`, `getSudiDir`, `getTrustPath`,
    `getCA` and `SignCert`.
  - `Issue` specifies one call. It gives the error returned, the filesystem afterwards
    and the ordered trace of collaborator and filesystem calls made.
  - Class `Host` holds the filesystem and the trace. Its method `DoSudiCert` follows the
    Go function step by step, with the same early returns. It is proved to produce
    exactly `Issue`'s error, filesystem and trace.
- `SudiProperties` (`sudi_properties.dfy`) proves what one call does and does not do.
- `Session` (`session.dfy`) covers invocations run one after another on the same host.

The machine UUID (`uuid.NewString()`) and the time (`time.Now()`) are parameters.

When a `privkey.pem` or `cert.pem` already exists, the code returns the variable `err`.
At that point `err` is the nil result of the successful `os.Stat`. So the call reports
success and does nothing more. One might expect a "credential exists" error here; the
code returns nil, and the model follows the code: see `ExistingCredentialReturnsNil`
and `ReissueIsNoOp`.

## Model

| member | source | states |
|---|---|---|
| Os.Join | cmd/trust/sudi.go:33-39 | `filepath.Join(dir, name)` is `dir` followed by the one component `name` |
| Os.Stat | cmd/trust/sudi.go:34-42 | `os.Stat` returns a nil error exactly when the path is present; otherwise an ENOENT path error |
| Os.ReadFile | cmd/trust/sudi.go:51-55 | `os.ReadFile` succeeds exactly on a regular file and returns its whole contents verbatim; otherwise a path error naming the path |
| Os.MkdirAllSpec | cmd/trust/sudi.go:65-68 | `os.MkdirAll` fails exactly when a regular file is in the way (ENOTDIR); on success it keeps every entry, adds only directories on the path, and the path and all its ancestors end up as directories |
| Sudi.NewCertTemplate | cmd/trust/sudi.go:77-87 | CommonName is the machine UUID; SerialNumber is `PID:<product> SN:<CommonName>`; KeyUsage is 13, whose bits decode to exactly {DigitalSignature, KeyEncipherment, DataEncipherment}; ExtKeyUsage is [ServerAuth, ClientAuth] in that order; NotBefore is the given now; NotAfter is 2099-12-31 23:00:00 UTC |
| SudiProperties.SubjectDeterminesIdentifiers | cmd/trust/sudi.go:77-82 | two templates with the same subject were built from the same product UUID and the same machine UUID |
| Sudi.WriteCredential | cmd/trust/sudi.go:69 | after the signer writes into a directory, both `privkey.pem` and `cert.pem` are present with the signer's key and certificate, and nothing else changes |
| Sudi.Issue | cmd/trust/sudi.go:17-75 | the specification of one call (error, filesystem afterwards, calls made); its own contract: no call is made exactly when the name is empty, otherwise the configuration probe comes first, and at most nine calls are made |
| Sudi.Provision | cmd/trust/sudi.go:45-74 | the specification of the steps after the existence checks; its own contract: the trust directory is resolved first, at most five calls are made, and a nil error means all five ran |
| Sudi.Host.DoSudiCert | cmd/trust/sudi.go:17-75 | the returned error, the new filesystem and the calls appended to the trace are exactly those of `Issue` for the filesystem before the call |
| Sudi.Host.ProvisionCredential | cmd/trust/sudi.go:45-74 | the steps after the existence checks produce exactly `Provision`'s error, filesystem and calls |
| Sudi.Host.PathExists | cmd/trust/sudi.go:23-24 | reports whether the configuration path is present and records the probe |
| Sudi.Host.GetSudiDir | cmd/trust/sudi.go:29 | returns the SUDI-directory collaborator's answer and records the call |
| Sudi.Host.Stat | cmd/trust/sudi.go:34 | returns `os.Stat`'s result on the current filesystem and records the call |
| Sudi.Host.GetTrustPath | cmd/trust/sudi.go:47 | returns the trust-directory collaborator's answer and records the call |
| Sudi.Host.ReadFile | cmd/trust/sudi.go:51 | returns `os.ReadFile`'s result on the current filesystem and records the call |
| Sudi.Host.GetCA | cmd/trust/sudi.go:60 | returns the CA collaborator's answer for the given name and keyset and records the call |
| Sudi.Host.MkdirAll | cmd/trust/sudi.go:65 | applies `os.MkdirAll` to the filesystem on success, leaves it unchanged on failure, returns its error |
| Sudi.Host.SignCert | cmd/trust/sudi.go:69 | on signer success writes both credential files into the directory and returns nil; on failure returns its error and writes nothing |
| SudiProperties.EmptyNameTouchesNothing | cmd/trust/sudi.go:18-20 | an empty VM name fails with "VM name must be provided" before any probe, read, directory or signing, and the filesystem is unchanged |
| SudiProperties.UninitializedNamesVm | cmd/trust/sudi.go:22-26 | a VM without configuration fails with a message that begins with the VM name; the only call made is the configuration probe; nothing changes |
| SudiProperties.ExistingCredentialReturnsNil | cmd/trust/sudi.go:28-43 | if `privkey.pem` or `cert.pem` is present, the call returns a nil error, leaves the filesystem unchanged and makes no call beyond the probes and stats |
| SudiProperties.ErrorsPropagateUnchanged | cmd/trust/sudi.go:29-72 | the errors of `getSudiDir`, `getTrustPath`, reading `manifest/uuid`, `getCA`, `MkdirAll` and `SignCert` are returned unchanged; every failure before `MkdirAll` leaves the filesystem untouched; a signer failure leaves only what `MkdirAll` created |
| SudiProperties.CaLookupByFixedName | cmd/trust/sudi.go:59-63 | the CA is looked up at most once, always with the name `sudi-ca` and the caller's keyset |
| SudiProperties.ProvisionFrame | cmd/trust/sudi.go:45-74 | after the existence checks: no existing entry is overwritten, nothing changes before `MkdirAll`, only the VM directory, its ancestors and its two files can appear, and nil means both files exist |
| SudiProperties.ProvisionTrace | cmd/trust/sudi.go:59-74 | after the existence checks: the signer runs at most once, as the last call, on `sudiDir/VMname`, right after a `MkdirAll` of that directory that succeeded; nil means the signer ran |
| SudiProperties.IssueFrame | cmd/trust/sudi.go:17-75 | one call never overwrites or removes an existing entry, changes nothing unless `MkdirAll` is reached, and creates nothing outside `sudiDir/VMname`, its ancestors and its two files |
| SudiProperties.IssueTrace | cmd/trust/sudi.go:28-72 | in one call the signer never runs when `getSudiDir` fails; otherwise it runs at most once, as the last call, with output directory `sudiDir` joined with `VMname`, right after `MkdirAll` of that directory succeeded |
| SudiProperties.NilOnlyWhenSigned | cmd/trust/sudi.go:65-74 | a nil error means either that a credential already existed and nothing changed, or that the signer ran on the VM's directory, succeeded, and both files now exist |
| SudiProperties.SignedTemplateFromUuidFile | cmd/trust/sudi.go:51-63 | the template given to the signer is `newCertTemplate` of the verbatim contents of `<trustDir>/manifest/uuid`, the machine UUID and the time; the CA given is `getCA("sudi-ca", keyset)`'s |
| SudiProperties.FreshIssueSucceeds | cmd/trust/sudi.go:45-74 | for an initialised VM with no credential, where every collaborator succeeds, the call returns nil; the VM's directory exists and holds the signer's key and certificate |
| SudiProperties.CredentialPersists | cmd/trust/sudi.go:33-43 | a call for any VM leaves an existing key or certificate in place, byte for byte |
| SudiProperties.ReissueIsNoOp | cmd/trust/sudi.go:33-43 | after a call that returned nil, calling again for the same VM returns nil, changes nothing and stops at the existence checks, whatever UUID, time and keyset it gets |
| Session.ReplayPreserves | cmd/trust/sudi.go:33-69 | over any sequence of invocations, no entry present at one point is removed or changed later |
| Session.AtMostOneIssuePerVm | cmd/trust/sudi.go:33-43 | once an invocation has signed a credential for a VM, every later one for that VM returns nil after its existence checks, changes nothing and does not sign |

## Left out

- Key generation, X.509 encoding, signing and PEM writing inside `SignCert`, and CA storage inside `getCA`. These are foreign calls outside this code. The model treats them as oracles that either succeed or fail.
- Sudi.Host.SignCert: the signer is atomic in the model. When it fails it writes nothing, although a real signer could leave one of the two files behind.
- `uuid.NewString()` and `time.Now()` are randomness and a clock read. They are parameters. The model does not show that UUIDs are unique. `SubjectDeterminesIdentifiers` shows that distinct UUIDs give distinct subjects.
- Os.Join: `filepath.Join` is modelled as adding one component. The model does not clean paths and does not split a VM name that contains a separator. Go cleans the joined path, so a VM name such as `..`, `.`, `../x` or `a/b` can put the real VM directory elsewhere, even outside `sudiDir`. The confinement that `IssueFrame` and `ProvisionFrame` state holds only in the model's component paths, and so only for VM names that are a single plain component.
- Os.Stat: every failure is modelled as ENOENT (path absent). As in the code, any failing stat lets the call continue.
- Os.ReadFile: fails only for a missing path or a directory. Permission and I/O failures are not modelled.
- Os.MkdirAllSpec: fails only when a regular file is in the way. Permission and disk failures are not modelled. The error names the full path, not the component that failed. The mode 0755 is not modelled.
- File contents are strings, not bytes. `string(content)` in the code is the identity on the bytes.
- `ConfPath` is an oracle from VM name to path, and `PathExists` means "present in the filesystem". The layout of configuration paths is not part of this model.
- The collaborators answer the same way throughout a `Session`. Their own state (a CA appearing later, say) is not modelled.
- Logging and printing (`fmt.Printf` at lines 36 and 41, `log.Infof` at line 73) are left out.
- The check-then-act race between the existence checks and the later writes is left out. It is a concurrency issue, and the code has no locking to model. `Session` covers only invocations that run one after another.
- Every `x509.Certificate` field that the template does not set keeps its zero value and is not represented.
