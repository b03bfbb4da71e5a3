/**
 * What one `doSudiCert` call does and does not do, stated over its
 * specification `Sudi.Issue`, and what the certificate template binds.
 */
module SudiProperties {
  import opened Os
  import opened X509
  import opened Sudi

  /** No call in the trace created a directory. */
  predicate NoMkdir(trace: seq<Event>)
  {
    forall e :: e in trace ==> !e.Mkdir?
  }

  /** The trace stops before fetching the UUID, the CA, the directory and the signer. */
  predicate OnlyChecks(trace: seq<Event>)
  {
    forall e :: e in trace ==> e.ProbeConfig? || e.ResolveSudiDir? || e.StatPath?
  }

  /** The signer ran, as the last call. */
  predicate EndsWithSign(trace: seq<Event>)
  {
    trace != [] && trace[|trace| - 1].Sign?
  }

  /**
   * The signer ran at most once, as the last call, on `sudiPath`, right
   * after a `MkdirAll` of `sudiPath` that succeeded.
   */
  predicate SignedOnceAfterMkdir(fs: FileSystem, trace: seq<Event>, sudiPath: Path)
  {
    (forall i :: 0 <= i < |trace| - 1 ==> !trace[i].Sign?) &&
    (EndsWithSign(trace) ==>
       |trace| >= 2 && trace[|trace| - 2] == Mkdir(sudiPath) &&
       trace[|trace| - 1].dir == sudiPath && MkdirAll(fs, sudiPath).Success?)
  }

  /** The entries a successful `MkdirAll` adds never include the credential files. */
  lemma MkdirLeavesCredentialAbsent(fs: FileSystem, sudiPath: Path)
    requires !CredentialExists(fs, sudiPath) && MkdirAll(fs, sudiPath).Success?
    ensures !CredentialExists(MkdirAll(fs, sudiPath).value, sudiPath)
    ensures forall p :: p in MkdirAll(fs, sudiPath).value && p !in fs ==> InVmTree(p, sudiPath)
  {
    MkdirAllSpec(fs, sudiPath);
  }

  /** The frame of a successful `MkdirAll` on a VM directory without a credential. */
  lemma MkdirFrame(fs: FileSystem, sudiPath: Path)
    requires !CredentialExists(fs, sudiPath) && MkdirAll(fs, sudiPath).Success?
    ensures var fs' := MkdirAll(fs, sudiPath).value;
            Preserves(fs, fs') && (forall p :: p in fs' && p !in fs ==> InVmTree(p, sudiPath))
  {
    MkdirAllSpec(fs, sudiPath);
  }

  /** The frame of `MkdirAll` followed by a signer that wrote `cred`. */
  lemma SignFrame(fs: FileSystem, sudiPath: Path, cred: Credential)
    requires !CredentialExists(fs, sudiPath) && MkdirAll(fs, sudiPath).Success?
    ensures var fs' := WriteCredential(MkdirAll(fs, sudiPath).value, sudiPath, cred);
            Preserves(fs, fs') && (forall p :: p in fs' && p !in fs ==> InVmTree(p, sudiPath)) &&
            CredentialComplete(fs', sudiPath)
  {
    MkdirLeavesCredentialAbsent(fs, sudiPath);
    MkdirAllSpec(fs, sudiPath);
  }

  /**
   * The filesystem side of the second half of a call: it overwrites nothing,
   * changes nothing before `MkdirAll`, creates only the VM's directory, its
   * ancestors and its two files, and a nil error means both files exist.
   */
  lemma {:induction false} ProvisionFrame(env: Env, fs: FileSystem, sudiPath: Path, keyset: string,
                                          machineUUID: string, now: Time)
    requires !CredentialExists(fs, sudiPath)
    ensures var r := Provision(env, fs, sudiPath, keyset, machineUUID, now);
            Preserves(fs, r.fs) &&
            (NoMkdir(r.trace) ==> r.fs == fs) &&
            (forall p :: p in r.fs && p !in fs ==> InVmTree(p, sudiPath)) &&
            (r.status == Nil ==> CredentialComplete(r.fs, sudiPath))
  {
    var r := Provision(env, fs, sudiPath, keyset, machineUUID, now);
    match env.trustDir {
      case Failure(_) =>
      case Success(trustDir) =>
        match ReadFile(fs, trustDir + UuidFile) {
          case Failure(_) =>
          case Success(content) =>
            match env.getCA(CaName, keyset) {
              case Failure(_) =>
              case Success(ca) =>
                assert r.trace[3] == Mkdir(sudiPath);
                match MkdirAll(fs, sudiPath) {
                  case Failure(_) =>
                  case Success(fs') =>
                    match env.sign(NewCertTemplate(content, machineUUID, now), ca, sudiPath) {
                      case Failure(_) =>
                        MkdirFrame(fs, sudiPath);
                      case Success(cred) =>
                        SignFrame(fs, sudiPath, cred);
                    }
                }
            }
        }
    }
  }

  /**
   * The call side of the second half of a call: the signer runs at most
   * once, last, right after a `MkdirAll` of `sudiPath` that succeeded, and a
   * nil error comes only from the signer.
   */
  lemma {:induction false} ProvisionTrace(env: Env, fs: FileSystem, sudiPath: Path, keyset: string,
                                          machineUUID: string, now: Time)
    ensures var r := Provision(env, fs, sudiPath, keyset, machineUUID, now);
            SignedOnceAfterMkdir(fs, r.trace, sudiPath) &&
            (r.status == Nil ==> EndsWithSign(r.trace))
  {
    var r := Provision(env, fs, sudiPath, keyset, machineUUID, now);
    match env.trustDir {
      case Failure(_) =>
      case Success(trustDir) =>
        var uuidPath := trustDir + UuidFile;
        match ReadFile(fs, uuidPath) {
          case Failure(_) =>
          case Success(content) =>
            var resolved := [ResolveTrustDir] + [Read(uuidPath)] + [ResolveCA(CaName, keyset)];
            assert forall i :: 0 <= i < |resolved| ==> !resolved[i].Sign?;
            if env.getCA(CaName, keyset).Success? && MkdirAll(fs, sudiPath).Success? {
              assert r.trace == resolved + [Mkdir(sudiPath)] + [r.trace[4]];
            }
        }
    }
  }

  /** The filesystem frame of one call: what it may change and what it leaves alone. */
  lemma {:induction false} IssueFrame(env: Env, fs: FileSystem, vmName: string, keyset: string,
                                      machineUUID: string, now: Time)
    ensures var r := Issue(env, fs, vmName, keyset, machineUUID, now);
            // no existing entry is overwritten or removed
            Preserves(fs, r.fs) &&
            // nothing changes on disk unless MkdirAll was reached
            (NoMkdir(r.trace) ==> r.fs == fs) &&
            // whatever is created lies on the VM's SUDI path
            (forall p :: p in r.fs && p !in fs ==>
               env.sudiDir.Success? && InVmTree(p, Join(env.sudiDir.value, vmName)))
  {
    var r := Issue(env, fs, vmName, keyset, machineUUID, now);
    if vmName != "" && env.confPath(vmName) in fs && env.sudiDir.Success? {
      var sudiPath := Join(env.sudiDir.value, vmName);
      if !CredentialExists(fs, sudiPath) {
        ProvisionFrame(env, fs, sudiPath, keyset, machineUUID, now);
        var p := Provision(env, fs, sudiPath, keyset, machineUUID, now);
        assert forall e :: e in p.trace ==> e in r.trace;
      }
    }
  }

  /**
   * The calls of one call: the signer runs at most once, as the last call,
   * right after `MkdirAll` of `sudiDir/vmName` succeeded.
   */
  lemma {:induction false} IssueTrace(env: Env, fs: FileSystem, vmName: string, keyset: string,
                                      machineUUID: string, now: Time)
    ensures var r := Issue(env, fs, vmName, keyset, machineUUID, now);
            (forall e :: e in r.trace && e.Sign? ==> env.sudiDir.Success?) &&
            (env.sudiDir.Success? ==> SignedOnceAfterMkdir(fs, r.trace, Join(env.sudiDir.value, vmName)))
  {
    var r := Issue(env, fs, vmName, keyset, machineUUID, now);
    if vmName != "" && env.confPath(vmName) in fs && env.sudiDir.Success? {
      var sudiPath := Join(env.sudiDir.value, vmName);
      var checks := [ProbeConfig(env.confPath(vmName))] + [ResolveSudiDir] + [StatPath(Join(sudiPath, KeyFile))];
      if !CredentialExists(fs, sudiPath) {
        var bothChecked := checks + [StatPath(Join(sudiPath, CertFile))];
        ProvisionTrace(env, fs, sudiPath, keyset, machineUUID, now);
        var p := Provision(env, fs, sudiPath, keyset, machineUUID, now);
        assert forall i :: 0 <= i < |bothChecked| ==> !bothChecked[i].Sign?;
        assert r.trace == bothChecked + p.trace;
      }
    }
  }

  /** An empty VM name is rejected before anything is probed, read or written. */
  lemma EmptyNameTouchesNothing(env: Env, fs: FileSystem, keyset: string, machineUUID: string, now: Time)
    ensures var r := Issue(env, fs, "", keyset, machineUUID, now);
            r.status == Fail(Message(NameRequired)) && r.fs == fs && r.trace == []
  {
  }

  /** A VM whose configuration is absent is rejected, by an error naming it, after one probe. */
  lemma UninitializedNamesVm(env: Env, fs: FileSystem, vmName: string, keyset: string,
                             machineUUID: string, now: Time)
    requires vmName != "" && !Initialized(env, fs, vmName)
    ensures var r := Issue(env, fs, vmName, keyset, machineUUID, now);
            r.status.Fail? && r.status.err.Message? &&
            vmName <= r.status.err.text &&
            r.fs == fs && r.trace == [ProbeConfig(env.confPath(vmName))]
  {
  }

  /**
   * An existing private key or certificate makes the call return a nil error
   * and do nothing more: no UUID read, no CA lookup, no directory, no signing.
   */
  lemma ExistingCredentialReturnsNil(env: Env, fs: FileSystem, vmName: string, keyset: string,
                                     machineUUID: string, now: Time)
    requires vmName != "" && Initialized(env, fs, vmName) && env.sudiDir.Success?
    requires CredentialExists(fs, Join(env.sudiDir.value, vmName))
    ensures var r := Issue(env, fs, vmName, keyset, machineUUID, now);
            r.status == Nil && r.fs == fs && OnlyChecks(r.trace)
  {
  }

  /**
   * Each failing step's error is returned as it is; every step before
   * `MkdirAll` fails with the filesystem untouched, and a signer failure
   * leaves at most the directories `MkdirAll` created.
   */
  lemma ErrorsPropagateUnchanged(env: Env, fs: FileSystem, vmName: string, keyset: string,
                                 machineUUID: string, now: Time)
    requires vmName != "" && Initialized(env, fs, vmName)
    ensures var r := Issue(env, fs, vmName, keyset, machineUUID, now);
            env.sudiDir.Failure? ==> r.status == Fail(env.sudiDir.error) && r.fs == fs
    ensures var r := Issue(env, fs, vmName, keyset, machineUUID, now);
            env.sudiDir.Success? && !CredentialExists(fs, Join(env.sudiDir.value, vmName)) ==>
            var sudiPath := Join(env.sudiDir.value, vmName);
            (env.trustDir.Failure? ==> r.status == Fail(env.trustDir.error) && r.fs == fs) &&
            (env.trustDir.Success? ==>
               var read := ReadFile(fs, env.trustDir.value + UuidFile);
               (read.Failure? ==> r.status == Fail(read.error) && r.fs == fs) &&
               (read.Success? ==>
                  var ca := env.getCA(CaName, keyset);
                  (ca.Failure? ==> r.status == Fail(ca.error) && r.fs == fs) &&
                  (ca.Success? ==>
                     var made := MkdirAll(fs, sudiPath);
                     (made.Failure? ==> r.status == Fail(made.error) && r.fs == fs) &&
                     (made.Success? ==>
                        var signed := env.sign(NewCertTemplate(read.value, machineUUID, now),
                                               ca.value, sudiPath);
                        signed.Failure? ==> r.status == Fail(signed.error) && r.fs == made.value))))
  {
  }

  /** In the second half of a call the CA lookup is the third call, and the only one. */
  lemma ProvisionCaLookup(env: Env, fs: FileSystem, sudiPath: Path, keyset: string,
                          machineUUID: string, now: Time)
    ensures var p := Provision(env, fs, sudiPath, keyset, machineUUID, now);
            forall i :: 0 <= i < |p.trace| && p.trace[i].ResolveCA? ==>
              i == 2 && p.trace[i] == ResolveCA(CaName, keyset)
  {
  }

  /** The CA is always looked up by the fixed name and the caller's keyset, at most once. */
  lemma CaLookupByFixedName(env: Env, fs: FileSystem, vmName: string, keyset: string,
                            machineUUID: string, now: Time)
    ensures var r := Issue(env, fs, vmName, keyset, machineUUID, now);
            forall i :: 0 <= i < |r.trace| && r.trace[i].ResolveCA? ==>
              r.trace[i] == ResolveCA(CaName, keyset) &&
              forall j :: 0 <= j < |r.trace| && j != i ==> !r.trace[j].ResolveCA?
  {
    var r := Issue(env, fs, vmName, keyset, machineUUID, now);
    if vmName != "" && env.confPath(vmName) in fs && env.sudiDir.Success? {
      var sudiPath := Join(env.sudiDir.value, vmName);
      if !CredentialExists(fs, sudiPath) {
        var checks := [ProbeConfig(env.confPath(vmName))] + [ResolveSudiDir] +
                       [StatPath(Join(sudiPath, KeyFile))] + [StatPath(Join(sudiPath, CertFile))];
        ProvisionCaLookup(env, fs, sudiPath, keyset, machineUUID, now);
        var p := Provision(env, fs, sudiPath, keyset, machineUUID, now);
        assert r.trace == checks + p.trace;
      }
    }
  }

  /**
   * Apart from the early return on an existing credential, a nil error means
   * the signer ran on the VM's directory and succeeded, and both files exist.
   */
  lemma {:induction false} NilOnlyWhenSigned(env: Env, fs: FileSystem, vmName: string, keyset: string,
                                             machineUUID: string, now: Time)
    ensures var r := Issue(env, fs, vmName, keyset, machineUUID, now);
            r.status == Nil ==>
              vmName != "" && Initialized(env, fs, vmName) && env.sudiDir.Success? &&
              var sudiPath := Join(env.sudiDir.value, vmName);
              (CredentialExists(fs, sudiPath) && r.fs == fs) ||
              (!CredentialExists(fs, sudiPath) && CredentialComplete(r.fs, sudiPath) &&
               r.trace != [] && r.trace[|r.trace| - 1].Sign? &&
               var last := r.trace[|r.trace| - 1];
               last.dir == sudiPath && env.sign(last.template, last.ca, last.dir).Success?)
  {
    var r := Issue(env, fs, vmName, keyset, machineUUID, now);
    if r.status == Nil && vmName != "" && env.confPath(vmName) in fs && env.sudiDir.Success? {
      var sudiPath := Join(env.sudiDir.value, vmName);
      if !CredentialExists(fs, sudiPath) {
        ProvisionFrame(env, fs, sudiPath, keyset, machineUUID, now);
        ProvisionTrace(env, fs, sudiPath, keyset, machineUUID, now);
      }
    }
  }

  /**
   * The certificate handed to the signer carries the verbatim contents of
   * `<trustDir>/manifest/uuid` and the caller's machine UUID and time.
   */
  lemma {:induction false} SignedTemplateFromUuidFile(env: Env, fs: FileSystem, vmName: string,
                                                      keyset: string, machineUUID: string, now: Time)
    ensures var r := Issue(env, fs, vmName, keyset, machineUUID, now);
            forall i :: 0 <= i < |r.trace| && r.trace[i].Sign? ==>
              env.trustDir.Success? &&
              env.trustDir.value + UuidFile in fs && fs[env.trustDir.value + UuidFile].File? &&
              r.trace[i].template ==
                NewCertTemplate(fs[env.trustDir.value + UuidFile].data, machineUUID, now) &&
              env.getCA(CaName, keyset) == Success(r.trace[i].ca)
  {
    var r := Issue(env, fs, vmName, keyset, machineUUID, now);
    IssueTrace(env, fs, vmName, keyset, machineUUID, now);
    forall i | 0 <= i < |r.trace| && r.trace[i].Sign?
      ensures env.trustDir.Success? &&
              env.trustDir.value + UuidFile in fs && fs[env.trustDir.value + UuidFile].File? &&
              r.trace[i].template ==
                NewCertTemplate(fs[env.trustDir.value + UuidFile].data, machineUUID, now) &&
              env.getCA(CaName, keyset) == Success(r.trace[i].ca)
    {
      assert |r.trace| == 9;
    }
  }

  /**
   * An initialised VM with no credential, whose collaborators all succeed,
   * ends with a nil error and the signer's key and certificate in
   * `sudiDir/vmName`.
   */
  lemma FreshIssueSucceeds(env: Env, fs: FileSystem, vmName: string, keyset: string,
                           machineUUID: string, now: Time)
    requires vmName != "" && Initialized(env, fs, vmName)
    requires env.sudiDir.Success? && !CredentialExists(fs, Join(env.sudiDir.value, vmName))
    requires env.trustDir.Success? && ReadFile(fs, env.trustDir.value + UuidFile).Success?
    requires env.getCA(CaName, keyset).Success?
    requires !BlockedByFile(fs, Join(env.sudiDir.value, vmName))
    requires
      var template := NewCertTemplate(ReadFile(fs, env.trustDir.value + UuidFile).value, machineUUID, now);
      env.sign(template, env.getCA(CaName, keyset).value, Join(env.sudiDir.value, vmName)).Success?
    ensures var r := Issue(env, fs, vmName, keyset, machineUUID, now);
            var sudiPath := Join(env.sudiDir.value, vmName);
            var template := NewCertTemplate(ReadFile(fs, env.trustDir.value + UuidFile).value, machineUUID, now);
            var cred := env.sign(template, env.getCA(CaName, keyset).value, sudiPath).value;
            r.status == Nil &&
            r.fs[Join(sudiPath, KeyFile)] == File(cred.key) &&
            r.fs[Join(sudiPath, CertFile)] == File(cred.cert) &&
            sudiPath in r.fs && r.fs[sudiPath] == Dir
  {
    var sudiPath := Join(env.sudiDir.value, vmName);
    var template := NewCertTemplate(ReadFile(fs, env.trustDir.value + UuidFile).value, machineUUID, now);
    var cred := env.sign(template, env.getCA(CaName, keyset).value, sudiPath).value;
    MkdirAllSpec(fs, sudiPath);
    var fs' := MkdirAll(fs, sudiPath).value;
    assert sudiPath in fs' && fs'[sudiPath] == Dir;
    var p := Provision(env, fs, sudiPath, keyset, machineUUID, now);
    assert p.status == Nil && p.fs == WriteCredential(fs', sudiPath, cred);
    var r := Issue(env, fs, vmName, keyset, machineUUID, now);
    assert r.status == p.status && r.fs == p.fs;
  }

  /** A credential, once present, is never removed or changed by a call for any VM. */
  lemma CredentialPersists(env: Env, fs: FileSystem, vmName: string, keyset: string,
                           machineUUID: string, now: Time, sudiPath: Path)
    requires CredentialExists(fs, sudiPath)
    ensures var r := Issue(env, fs, vmName, keyset, machineUUID, now);
            CredentialExists(r.fs, sudiPath) &&
            (Join(sudiPath, KeyFile) in fs ==> r.fs[Join(sudiPath, KeyFile)] == fs[Join(sudiPath, KeyFile)]) &&
            (Join(sudiPath, CertFile) in fs ==> r.fs[Join(sudiPath, CertFile)] == fs[Join(sudiPath, CertFile)])
  {
    IssueFrame(env, fs, vmName, keyset, machineUUID, now);
  }

  /**
   * Calling again after a call that returned nil returns nil again, with a
   * fresh machine UUID and time, and changes nothing.
   */
  lemma {:induction false} ReissueIsNoOp(env: Env, fs: FileSystem, vmName: string, keyset: string,
                                         machineUUID: string, now: Time,
                                         keyset': string, machineUUID': string, now': Time)
    requires Issue(env, fs, vmName, keyset, machineUUID, now).status == Nil
    ensures var fs1 := Issue(env, fs, vmName, keyset, machineUUID, now).fs;
            var r := Issue(env, fs1, vmName, keyset', machineUUID', now');
            r.status == Nil && r.fs == fs1 && OnlyChecks(r.trace)
  {
    var fs1 := Issue(env, fs, vmName, keyset, machineUUID, now).fs;
    NilOnlyWhenSigned(env, fs, vmName, keyset, machineUUID, now);
    IssueFrame(env, fs, vmName, keyset, machineUUID, now);
    assert env.confPath(vmName) in fs1;
    ExistingCredentialReturnsNil(env, fs1, vmName, keyset', machineUUID', now');
  }

  /** The subject of a SUDI certificate determines both identifiers it was built from. */
  lemma SubjectDeterminesIdentifiers(product1: string, machine1: string, now1: Time,
                                     product2: string, machine2: string, now2: Time)
    requires NewCertTemplate(product1, machine1, now1).subject ==
             NewCertTemplate(product2, machine2, now2).subject
    ensures product1 == product2 && machine1 == machine2
  {
    var s1 := NewCertTemplate(product1, machine1, now1).subject.serialNumber;
    var s2 := NewCertTemplate(product2, machine2, now2).subject.serialNumber;
    assert |product1| == |product2|;
    assert product1 == s1[4..4 + |product1|];
    assert product2 == s2[4..4 + |product2|];
  }
}
